/** `decode_composite` of src/query.rs: when the reader accepts what the assembler wrote.
    Storage in between is taken to be the identity. */
module CompositeReader {
  import opened Text
  import Measurements
  import opened Composite
  import opened Counting
  import opened CompositeAssemble
  import opened CompositeLaws
  import opened CompositeSize

  datatype Decoded = PathConflict | TotalsMismatch | Decoded(hits: map<string, int>)

  /** Positive, zero, or "not measured". */
  function HitsOf(s: RegionState): int {
    match s case Covered => 1 case Uncovered => 0 case _ => -1
  }

  ghost predicate Conflicting(rows: map<string, Row>) {
    exists a, b :: a in rows && b in rows && rows[a].expected.entry.path == rows[b].expected.entry.path
                   && rows[a].expected.entry.hash != rows[b].expected.entry.hash
  }

  function CoveredRows(rows: map<string, Row>): set<string> {
    set key | key in rows && rows[key].state.Covered?
  }

  ghost function Read(rows: map<string, Row>, total: int, covered: int): Decoded {
    if Conflicting(rows) then PathConflict
    else if |rows| != total || |CoveredRows(rows)| != covered then TotalsMismatch
    else Decoded(map key | key in rows :: HitsOf(rows[key].state))
  }

  /** Each path met so far is remembered with the hash of its rows. */
  ghost predicate Hashes(rows: map<string, Row>, done: set<string>, hashes: map<string, string>) {
    && (forall key :: key in done ==> key in rows && rows[key].expected.entry.path in hashes
                                      && hashes[rows[key].expected.entry.path] == rows[key].expected.entry.hash)
    && (forall p :: p in hashes ==> exists key :: key in done && key in rows && rows[key].expected.entry.path == p)
  }

  datatype Reading = Reading(native: map<string, int>, regions: nat, hit: nat)

  function ReadingOf(rows: map<string, Row>, done: set<string>): Reading
    requires done <= rows.Keys
  {
    Reading(map key | key in done :: HitsOf(rows[key].state), |done|, |CoveredRows(rows) * done|)
  }

  lemma ReadOne(rows: map<string, Row>, done: set<string>, key: string)
    requires done <= rows.Keys && key in rows && key !in done
    ensures var r, h := ReadingOf(rows, done), HitsOf(rows[key].state);
            ReadingOf(rows, done + {key}) == Reading(r.native[key := h], r.regions + 1, r.hit + if h > 0 then 1 else 0)
  {
    var c := CoveredRows(rows);
    if rows[key].state.Covered? {
      assert c * (done + {key}) == c * done + {key};
    } else {
      assert c * (done + {key}) == c * done;
    }
    var m := map k | k in done + {key} :: HitsOf(rows[k].state);
    assert m == ReadingOf(rows, done).native[key := HitsOf(rows[key].state)];
  }

  lemma HashOne(rows: map<string, Row>, done: set<string>, hashes: map<string, string>, key: string)
    requires Hashes(rows, done, hashes) && key in rows
    ensures var e := rows[key].expected.entry;
            if e.path in hashes && hashes[e.path] != e.hash then Conflicting(rows)
            else Hashes(rows, done + {key}, hashes[e.path := e.hash])
  {
    var e := rows[key].expected.entry;
    if e.path in hashes && hashes[e.path] != e.hash {
      var other :| other in done && other in rows && rows[other].expected.entry.path == e.path;
      assert rows[other].expected.entry.hash != e.hash;
    } else {
      var after := hashes[e.path := e.hash];
      forall p | p in after ensures exists k :: k in done + {key} && k in rows && rows[k].expected.entry.path == p {
        if p == e.path {
          assert key in done + {key};
        } else {
          var k :| k in done && k in rows && rows[k].expected.entry.path == p;
          assert k in done + {key};
        }
      }
    }
  }

  lemma NoConflict(rows: map<string, Row>, hashes: map<string, string>)
    requires Hashes(rows, rows.Keys, hashes)
    ensures !Conflicting(rows)
  {
  }

  /** Reading so far: the remembered hashes and the running counts. */
  datatype Progress = Progress(hashes: map<string, string>, reading: Reading)

  ghost predicate Reached(rows: map<string, Row>, done: set<string>, p: Progress) {
    done <= rows.Keys && Hashes(rows, done, p.hashes) && p.reading == ReadingOf(rows, done)
  }

  /** One row. */
  method ReadRow(rows: map<string, Row>, key: string, p: Progress, ghost done: set<string>) returns (out: Option<Progress>)
    requires Reached(rows, done, p) && key in rows && key !in done
    ensures out.None? ==> Conflicting(rows)
    ensures out.Some? ==> Reached(rows, done + {key}, out.value)
  {
    var e, hits, r := rows[key].expected.entry, HitsOf(rows[key].state), p.reading;
    HashOne(rows, done, p.hashes, key);
    if e.path in p.hashes && p.hashes[e.path] != e.hash {
      return None;
    }
    ReadOne(rows, done, key);
    out := Some(Progress(p.hashes[e.path := e.hash],
                         Reading(r.native[key := hits], r.regions + 1, r.hit + if hits > 0 then 1 else 0)));
  }

  /** The row loop, in any order of the rows. */
  method ReadRows(rows: map<string, Row>) returns (out: Option<Progress>)
    ensures out.None? <==> Conflicting(rows)
    ensures out.Some? ==> Reached(rows, rows.Keys, out.value)
  {
    var p, todo := Progress(map[], ReadingOf(rows, {})), rows.Keys;
    while todo != {}
      invariant todo <= rows.Keys && Reached(rows, rows.Keys - todo, p)
      decreases todo
    {
      var key :| key in todo;
      Shift(rows.Keys, todo, key);
      var next := ReadRow(rows, key, p, rows.Keys - todo);
      if next.None? {
        return None;
      }
      p, todo := next.value, todo - {key};
    }
    assert rows.Keys - {} == rows.Keys;
    NoConflict(rows, p.hashes);
    return Some(p);
  }

  /** The rows, then the totals check against the snapshot. */
  method Decode(rows: map<string, Row>, total: int, covered: int) returns (d: Decoded, hashes: map<string, string>)
    ensures d == Read(rows, total, covered)
    ensures d.Decoded? ==> Hashes(rows, rows.Keys, hashes)
  {
    var out := ReadRows(rows);
    hashes := map[];
    if out.None? {
      return PathConflict, hashes;
    }
    assert CoveredRows(rows) * rows.Keys == CoveredRows(rows);
    assert |rows| == |rows.Keys|;
    var reading := out.value.reading;
    if reading.regions != total || reading.hit != covered {
      return TotalsMismatch, hashes;
    }
    return Decoded(reading.native), out.value.hashes;
  }

  // ---------- the measurement ----------

  datatype Opened = Rejected(why: Decoded) | SourceUnreadable | Opened(hits: map<string, int>, state: Measurements.SourceState)

  function PathsOf(rows: map<string, Row>): set<string> { set key | key in rows :: rows[key].expected.entry.path }

  ghost function HashAt(rows: map<string, Row>, path: string): string
    requires path in PathsOf(rows)
  {
    var key :| key in rows && rows[key].expected.entry.path == path;
    rows[key].expected.entry.hash
  }

  /** The source hashes a snapshot carries, one per path. */
  ghost function ReceiptOf(rows: map<string, Row>): map<string, string> {
    map path | path in PathsOf(rows) :: HashAt(rows, path)
  }

  lemma OneReceipt(rows: map<string, Row>, hashes: map<string, string>)
    requires Hashes(rows, rows.Keys, hashes)
    ensures hashes == ReceiptOf(rows)
  {
    assert hashes.Keys == PathsOf(rows);
  }

  /** Rows and totals, then the files of the rows against the checkout. */
  ghost function Open(rows: map<string, Row>, total: int, covered: int, files: seq<string>,
                      disk: string -> Measurements.OnDisk): Opened {
    var d := Read(rows, total, covered);
    if !d.Decoded? then Rejected(d)
    else
      var checked := Measurements.Verdict(files, Some(ReceiptOf(rows)), disk);
      if checked.Failed? then SourceUnreadable else Opened(d.hits, checked.state)
  }

  /** The whole of `decode_composite`; `files` lists the paths of the rows in report order. */
  method DecodeComposite(rows: map<string, Row>, total: int, covered: int, files: seq<string>,
                         disk: string -> Measurements.OnDisk) returns (o: Opened)
    ensures o == Open(rows, total, covered, files, disk)
  {
    var d, hashes := Decode(rows, total, covered);
    if !d.Decoded? {
      return Rejected(d);
    }
    OneReceipt(rows, hashes);
    var checked := Measurements.CheckSources(files, Some(hashes), disk);
    return if checked.Failed? then SourceUnreadable else Opened(d.hits, checked.state);
  }

  /** Each decoded count is positive, zero or negative exactly with its row's state. */
  lemma DecodedSign(rows: map<string, Row>, total: int, covered: int, key: string)
    requires Read(rows, total, covered).Decoded? && key in rows
    ensures var h := Read(rows, total, covered).hits;
            && h.Keys == rows.Keys
            && (h[key] > 0 <==> rows[key].state.Covered?)
            && (h[key] == 0 <==> rows[key].state.Uncovered?)
            && (h[key] < 0 <==> !rows[key].state.Covered? && !rows[key].state.Uncovered?)
  {
  }

  // ---------- writer against reader ----------

  /** A region that one variant covers while another has no usable measurement. */
  ghost predicate Mixed(v: Evidenced, x: Expected, key: string) {
    RegionCovered(v, x, key)
    && exists variant :: variant in Variants(x.entry)
                         && !StateOf(v, x, key, variant).Covered? && !StateOf(v, x, key, variant).Uncovered?
  }

  lemma RowCovered(v: Evidenced, x: Expected, key: string)
    ensures RowState(StatesOf(v, x, key)).Covered? <==> RegionCovered(v, x, key) && !Mixed(v, x, key)
  {
    forall s ensures s in StatesOf(v, x, key) <==> exists variant :: variant in Variants(x.entry) && StateOf(v, x, key, variant) == s {}
    if Mixed(v, x, key) {
      var variant :| variant in Variants(x.entry)
                     && !StateOf(v, x, key, variant).Covered? && !StateOf(v, x, key, variant).Uncovered?;
      assert StateOf(v, x, key, variant) in StatesOf(v, x, key);
    }
  }

  /** The reader's totals check accepts an assembled build exactly when no region mixes a
      covered variant with one that is mismatched, missing, stale or unmeasured. */
  lemma ReaderAcceptsIff(j: Verdict, expected: map<string, Expected>, b: Build)
    requires IsBuild(j, expected, b)
    ensures !Read(b.rows, b.total, b.covered).TotalsMismatch? <==>
              Conflicting(b.rows) || forall key :: key in expected ==> !Mixed(j.evidenced, expected[key], key)
  {
    var shown, all := CoveredRows(b.rows), CoveredKeys(j.evidenced, expected);
    forall key | key in expected
      ensures key in shown <==> key in all && !Mixed(j.evidenced, expected[key], key)
    {
      assert IsRow(j.evidenced, expected[key], key, b.rows[key]);
      RowCovered(j.evidenced, expected[key], key);
    }
    assert |b.rows| == |b.rows.Keys| == |expected.Keys| == |expected|;
    Inside(shown, all);
  }

  // ---------- complete builds ----------

  lemma ExpectedEntries(inv: Inventory, key: string)
    requires key in ExpectedOf(Production(inv.entries))
    ensures ExpectedOf(Production(inv.entries))[key].entry in Production(inv.entries)
  {
    var es := Production(inv.entries);
    PairKeys(AllPairs(es), key);
    PairOrigin(es, Keyed(key, ExpectedOf(es)[key]));
  }

  /** A clean assembly leaves nothing for the priority chain but the measurements. */
  ghost predicate Untroubled(v: Evidenced) {
    v.mismatches == {} && v.badSources == {} && !v.dirty && forall s :: s in v.statuses ==> v.statuses[s].Ingested?
  }

  lemma CleanEvidence(inv: Inventory, inputs: seq<Input>, c: Checkout)
    requires CleanAssembly(inv, inputs, c)
    ensures Untroubled(Judge(inv, inputs, c).evidenced)
    ensures Judge(inv, inputs, c).evidenced.statuses == Gather(TargetOf(inv), inputs).statuses
  {
    CleanGather(TargetOf(inv), inputs);
    AuditMembers(c, Gather(TargetOf(inv), inputs).statuses.Keys, inputs, Production(inv.entries));
    forall e | e in Production(inv.entries) ensures SourceOk(c, e) {
      assert Served(c, SlotsOf(inputs), inputs, e);
    }
  }

  lemma UntroubledState(v: Evidenced, x: Expected, key: string, variant: string)
    requires Untroubled(v) && Slot(x.entry.component, variant) in v.statuses
    ensures var s := StateOf(v, x, key, variant);
            if SeenAt(v, Slot(x.entry.component, variant), key) then s.Covered? || s.Uncovered? else s.Unmeasured?
  {
  }

  lemma CleanSource(inv: Inventory, inputs: seq<Input>, c: Checkout, key: string)
    requires CleanAssembly(inv, inputs, c) && key in TargetOf(inv).expected
    ensures SourceOk(c, TargetOf(inv).expected[key].entry)
    ensures forall v :: v in Variants(TargetOf(inv).expected[key].entry) ==>
              Slot(TargetOf(inv).expected[key].entry.component, v) in Gather(TargetOf(inv), inputs).statuses
  {
    ExpectedEntries(inv, key);
    var e := TargetOf(inv).expected[key].entry;
    assert Served(c, SlotsOf(inputs), inputs, e);
    forall v | v in Variants(e) ensures Slot(e.component, v) in Gather(TargetOf(inv), inputs).statuses {
      SlotMembers(TargetOf(inv), inputs, Slot(e.component, v));
    }
  }

  lemma CleanNoConflict(inv: Inventory, inputs: seq<Input>, c: Checkout, rows: map<string, Row>)
    requires CleanAssembly(inv, inputs, c) && rows.Keys == TargetOf(inv).expected.Keys
    requires forall key :: key in rows ==> rows[key].expected == TargetOf(inv).expected[key]
    ensures !Conflicting(rows)
  {
    forall key | key in rows ensures SourceOk(c, rows[key].expected.entry) {
      CleanSource(inv, inputs, c, key);
    }
  }

  lemma CleanMixed(inv: Inventory, inputs: seq<Input>, c: Checkout, key: string)
    requires CleanAssembly(inv, inputs, c) && key in TargetOf(inv).expected
    ensures var x, v := TargetOf(inv).expected[key], Judge(inv, inputs, c).evidenced;
            RegionCovered(v, x, key) ==> (Mixed(v, x, key) <==>
              exists variant :: variant in Variants(x.entry) && !SeenAt(v, Slot(x.entry.component, variant), key))
  {
    var x, v := TargetOf(inv).expected[key], Judge(inv, inputs, c).evidenced;
    CleanEvidence(inv, inputs, c);
    CleanSource(inv, inputs, c, key);
    forall variant | variant in Variants(x.entry)
      ensures !SeenAt(v, Slot(x.entry.component, variant), key) <==>
              !StateOf(v, x, key, variant).Covered? && !StateOf(v, x, key, variant).Uncovered?
    {
      UntroubledState(v, x, key, variant);
    }
  }

  /** The artifact says something about the region. */
  predicate Names(i: Input, key: string) { exists c :: c in i.claims && c.key == key }

  /** Every declared variant of every expected region has an artifact that names the region. */
  ghost predicate EveryVariantSpeaks(inv: Inventory, inputs: seq<Input>) {
    forall key :: key in TargetOf(inv).expected ==> SpokenFor(inputs, TargetOf(inv).expected[key], key)
  }

  ghost predicate SpokenFor(inputs: seq<Input>, x: Expected, key: string) {
    forall variant :: variant in Variants(x.entry) ==>
      exists i :: i in inputs && i.slot == Slot(x.entry.component, variant) && Names(i, key)
  }

  lemma CleanNames(t: Target, inputs: seq<Input>, slot: Slot, key: string)
    requires forall i :: i in inputs ==> CleanInput(t, i)
    ensures (exists s :: s in Gather(t, inputs).effects.seen && s.slot == slot && s.key == key)
       <==> exists i :: i in inputs && i.slot == slot && Names(i, key)
  {
    SeenMentions(t, inputs, slot, key);
    forall i | i in inputs ensures Mentions(t, i, key) <==> Names(i, key) {
      assert CleanInput(t, i);
    }
  }

  lemma CleanSpoken(inv: Inventory, inputs: seq<Input>, c: Checkout, key: string)
    requires CleanAssembly(inv, inputs, c) && key in TargetOf(inv).expected
    ensures var x, v := TargetOf(inv).expected[key], Judge(inv, inputs, c).evidenced;
            RegionCovered(v, x, key) ==> (Mixed(v, x, key) <==> !SpokenFor(inputs, x, key))
  {
    var x, v := TargetOf(inv).expected[key], Judge(inv, inputs, c).evidenced;
    CleanMixed(inv, inputs, c, key);
    forall variant | variant in Variants(x.entry)
      ensures SeenAt(v, Slot(x.entry.component, variant), key) <==>
              exists i :: i in inputs && i.slot == Slot(x.entry.component, variant) && Names(i, key)
    {
      CleanNames(TargetOf(inv), inputs, Slot(x.entry.component, variant), key);
    }
  }

  /** "Complete" does not imply readable: a complete composite decodes exactly when every
      declared variant of every expected region has an artifact that names the region. A
      variant that is silent about a region another variant covers makes it unreadable. */
  lemma CompleteReadableIff(inv: Inventory, inputs: seq<Input>, c: Checkout, b: Build)
    requires Complete(inv, inputs, c) && IsBuild(Judge(inv, inputs, c), TargetOf(inv).expected, b)
    ensures Read(b.rows, b.total, b.covered).Decoded? <==> EveryVariantSpeaks(inv, inputs)
  {
    var expected, v := TargetOf(inv).expected, Judge(inv, inputs, c).evidenced;
    CompleteParts(inv, inputs, c);
    ReasonsEmpty(inv, inputs, c);
    forall key | key in expected ensures b.rows[key].expected == expected[key] {
      assert IsRow(v, expected[key], key, b.rows[key]);
    }
    CleanNoConflict(inv, inputs, c, b.rows);
    forall key | key in expected ensures Mixed(v, expected[key], key) <==> !SpokenFor(inputs, expected[key], key) {
      CleanSpoken(inv, inputs, c, key);
      assert key in CoveredKeys(v, expected);
    }
    ReadableIff(Judge(inv, inputs, c), expected, b);
  }

  lemma ReadableIff(j: Verdict, expected: map<string, Expected>, b: Build)
    requires IsBuild(j, expected, b) && !Conflicting(b.rows)
    ensures Read(b.rows, b.total, b.covered).Decoded? <==> forall key :: key in expected ==> !Mixed(j.evidenced, expected[key], key)
  {
    ReaderAcceptsIff(j, expected, b);
  }

  // ---------- reading on the checkout it was built on ----------

  lemma CleanVerdict(rows: map<string, Row>, files: seq<string>, disk: string -> Measurements.OnDisk)
    requires files != [] && forall p :: p in files ==> p in PathsOf(rows)
    requires forall key :: key in rows ==> disk(rows[key].expected.entry.path) == Measurements.Digest(rows[key].expected.entry.hash)
    ensures Measurements.Verdict(files, Some(ReceiptOf(rows)), disk) == Measurements.Checked(Measurements.MatchesReceipt)
  {
    var receipt := ReceiptOf(rows);
    forall f | f in files ensures f in receipt && disk(f) == Measurements.Digest(receipt[f]) {
      assert f in PathsOf(rows);
    }
    Measurements.VerdictMeaning(files, receipt, disk);
  }

  ghost predicate OnDisk(rows: map<string, Row>, disk: string -> Measurements.OnDisk) {
    forall key :: key in rows ==> disk(rows[key].expected.entry.path) == Measurements.Digest(rows[key].expected.entry.hash)
  }

  lemma RowsOnDisk(inv: Inventory, inputs: seq<Input>, c: Checkout, rows: map<string, Row>, disk: string -> Measurements.OnDisk)
    requires CleanAssembly(inv, inputs, c) && rows.Keys == TargetOf(inv).expected.Keys
    requires forall key :: key in rows ==> rows[key].expected == TargetOf(inv).expected[key]
    requires forall p :: p in c.disk ==> disk(p) == Measurements.Digest(c.disk[p])
    ensures OnDisk(rows, disk)
  {
    forall key | key in rows ensures disk(rows[key].expected.entry.path) == Measurements.Digest(rows[key].expected.entry.hash) {
      CleanSource(inv, inputs, c, key);
    }
  }

  lemma CompleteClean(inv: Inventory, inputs: seq<Input>, c: Checkout)
    requires Complete(inv, inputs, c)
    ensures CleanAssembly(inv, inputs, c)
  {
    CompleteIff(inv, inputs, c);
  }

  lemma BuildRows(j: Verdict, expected: map<string, Expected>, b: Build)
    requires IsBuild(j, expected, b)
    ensures b.rows.Keys == expected.Keys && forall key :: key in b.rows ==> b.rows[key].expected == expected[key]
  {
    forall key | key in b.rows ensures b.rows[key].expected == expected[key] {
      assert IsRow(j.evidenced, expected[key], key, b.rows[key]);
    }
  }

  lemma OpensClean(rows: map<string, Row>, total: int, covered: int, files: seq<string>, disk: string -> Measurements.OnDisk)
    requires Read(rows, total, covered).Decoded? && OnDisk(rows, disk) && files != [] && forall p :: p in files ==> p in PathsOf(rows)
    ensures var o := Open(rows, total, covered, files, disk); o.Opened? && o.state == Measurements.MatchesReceipt
  {
    CleanVerdict(rows, files, disk);
  }

  /** A complete composite whose variants all speak, read on the checkout it was built on, is
      opened and matches its receipt. */
  lemma CompleteOpens(inv: Inventory, inputs: seq<Input>, c: Checkout, b: Build, files: seq<string>, disk: string -> Measurements.OnDisk)
    requires Complete(inv, inputs, c) && IsBuild(Judge(inv, inputs, c), TargetOf(inv).expected, b)
    requires EveryVariantSpeaks(inv, inputs) && files != [] && forall p :: p in files ==> p in PathsOf(b.rows)
    requires forall p :: p in c.disk ==> disk(p) == Measurements.Digest(c.disk[p])
    ensures var o := Open(b.rows, b.total, b.covered, files, disk); o.Opened? && o.state == Measurements.MatchesReceipt
  {
    CompleteReadableIff(inv, inputs, c, b);
    CompleteClean(inv, inputs, c);
    BuildRows(Judge(inv, inputs, c), TargetOf(inv).expected, b);
    RowsOnDisk(inv, inputs, c, b.rows, disk);
    OpensClean(b.rows, b.total, b.covered, files, disk);
  }
}
