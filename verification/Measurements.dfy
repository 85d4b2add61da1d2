/** Observations, measurements and the source receipt check of src/query.rs. */
module Measurements {
  import opened Text
  import opened Keys

  datatype Metric = Regions | Branches | Lines

  function MetricName(m: Metric): string {
    match m case Regions => "regions" case Branches => "branches" case Lines => "lines"
  }

  datatype Observation = Observation(path: string, symbol: string, span: Span, kind: Metric, arm: string,
                                     hits: int, identity: Option<string>, cause: Option<string>)

  /** `Observation::key`. */
  function RowKey(o: Observation): string {
    if o.identity.Some? then o.identity.value
    else ObservationKey(MetricName(o.kind), o.path, o.symbol, o.span, o.arm)
  }

  predicate Contains(s: string, t: string) { exists i :: 0 <= i <= |s| - |t| && At(s, t, i) }

  predicate At(s: string, t: string, i: int)
    requires 0 <= i <= |s| - |t|
  {
    s[i..i + |t|] == t
  }

  /** The text occurs somewhere in the other. */
  ghost predicate Occurs(text: string, whole: string) { exists before, behind :: whole == before + text + behind }

  lemma ContainsOccurs(whole: string, text: string)
    ensures Contains(whole, text) <==> Occurs(text, whole)
  {
    if i :| 0 <= i <= |whole| - |text| && At(whole, text, i) {
      assert whole == whole[..i] + text + whole[i + |text|..];
    }
    if before, behind :| whole == before + text + behind {
      assert whole[|before|..|before| + |text|] == text;
      assert At(whole, text, |before|);
    }
  }

  /** `Observation::matches`, for any lower-casing: the text is in the path or the function, or
      across both, and the line is one of the observation's. */
  predicate Matches(o: Observation, query: Option<string>, line: Option<int>, lower: string -> string) {
    && (query.None? || Contains(lower(o.path + " " + o.symbol), lower(query.value)))
    && (line.None? || o.span.startLine <= line.value <= o.span.endLine)
  }

  datatype SourceState = MatchesReceipt | Unverified | ChangedOrMissing

  datatype TestStatus = TestsPassed | TestsFailed | TestsUnknown

  datatype Counts = Counts(covered: int, total: int)

  /** `hashes` holds the receipt's string-valued source hashes; `rows` the observations by key. */
  datatype Measurement = Measurement(format: string, files: seq<string>, regions: Counts, branches: Counts,
                                     lines: Counts, buildId: Option<string>, tests: TestStatus,
                                     hashes: map<string, string>, source: SourceState,
                                     rows: map<string, Observation>)
  {
    function Reported(metric: Metric): Counts {
      match metric case Regions => regions case Branches => branches case Lines => lines
    }
  }

  // ---------- source_state ----------

  /** What the checkout says about one path. */
  datatype OnDisk = Unresolved | Unreadable | Digest(value: string)

  datatype Checked = Failed | Checked(state: SourceState)

  predicate Missing(file: string, receipt: map<string, string>) { file !in receipt }

  predicate Mismatch(file: string, receipt: map<string, string>, disk: string -> OnDisk) {
    file in receipt && (disk(file).Unresolved? || (disk(file).Digest? && disk(file).value != receipt[file]))
  }

  predicate ReadFails(file: string, receipt: map<string, string>, disk: string -> OnDisk) {
    file in receipt && disk(file).Unreadable?
  }

  /** The index of the first file that stops the scan, or the number of files. */
  function FirstStop(files: seq<string>, receipt: map<string, string>, disk: string -> OnDisk): (n: nat)
    ensures n <= |files|
    ensures forall i :: 0 <= i < n ==> !Mismatch(files[i], receipt, disk) && !ReadFails(files[i], receipt, disk)
    ensures n < |files| ==> Mismatch(files[n], receipt, disk) || ReadFails(files[n], receipt, disk)
  {
    if files == [] || Mismatch(files[0], receipt, disk) || ReadFails(files[0], receipt, disk) then 0
    else 1 + FirstStop(files[1..], receipt, disk)
  }

  /** The verdict, said without the scan: the first stop decides, then any missing hash. */
  function Verdict(files: seq<string>, receipt: Option<map<string, string>>, disk: string -> OnDisk): Checked {
    if receipt.None? || files == [] then Checked(Unverified)
    else
      var n := FirstStop(files, receipt.value, disk);
      if n < |files| then
        if ReadFails(files[n], receipt.value, disk) then Failed else Checked(ChangedOrMissing)
      else if exists i :: 0 <= i < |files| && Missing(files[i], receipt.value) then Checked(Unverified)
      else Checked(MatchesReceipt)
  }

  /** The scan of `source_state`. */
  method CheckSources(files: seq<string>, receipt: Option<map<string, string>>, disk: string -> OnDisk)
    returns (r: Checked)
    ensures r == Verdict(files, receipt, disk)
  {
    if receipt.None? || files == [] {
      return Checked(Unverified);
    }
    var state := MatchesReceipt;
    for i := 0 to |files|
      invariant state == if exists j :: 0 <= j < i && Missing(files[j], receipt.value) then Unverified else MatchesReceipt
      invariant forall j :: 0 <= j < i ==> !Mismatch(files[j], receipt.value, disk) && !ReadFails(files[j], receipt.value, disk)
    {
      ghost var stop := FirstStop(files, receipt.value, disk);
      var file := files[i];
      if file !in receipt.value {
        assert Missing(files[i], receipt.value);
        state := Unverified;
        continue;
      }
      match disk(file) {
        case Unresolved => assert stop == i; return Checked(ChangedOrMissing);
        case Unreadable => assert stop == i; return Failed;
        case Digest(d) =>
          if d != receipt.value[file] {
            assert stop == i;
            return Checked(ChangedOrMissing);
          }
      }
    }
    assert FirstStop(files, receipt.value, disk) == |files|;
    return Checked(state);
  }

  /** When every file can be read, a mismatch anywhere beats any missing hash, and a missing
      hash anywhere beats a match. */
  lemma VerdictMeaning(files: seq<string>, receipt: map<string, string>, disk: string -> OnDisk)
    requires files != [] && forall f :: f in files ==> !ReadFails(f, receipt, disk)
    ensures Verdict(files, Some(receipt), disk) == Checked(
              if exists f :: f in files && Mismatch(f, receipt, disk) then ChangedOrMissing
              else if exists f :: f in files && Missing(f, receipt) then Unverified
              else MatchesReceipt)
  {
    var n := FirstStop(files, receipt, disk);
    if n < |files| {
      assert files[n] in files;
    }
    if exists i :: 0 <= i < |files| && Missing(files[i], receipt) {
      var i :| 0 <= i < |files| && Missing(files[i], receipt);
      assert files[i] in files;
    }
  }

  /** Every order of the files gives one verdict exactly unless some file cannot be read
      while another one mismatches. */
  lemma VerdictOrder(files: seq<string>, receipt: map<string, string>, disk: string -> OnDisk)
    requires files != []
    ensures (forall other: seq<string> :: multiset(other) == multiset(files) ==>
               Verdict(other, Some(receipt), disk) == Verdict(files, Some(receipt), disk))
       <==> !((exists f :: f in files && Mismatch(f, receipt, disk)) && (exists f :: f in files && ReadFails(f, receipt, disk)))
  {
    if (exists f :: f in files && Mismatch(f, receipt, disk)) && (exists f :: f in files && ReadFails(f, receipt, disk)) {
      var bad :| bad in files && Mismatch(bad, receipt, disk);
      var dark :| dark in files && ReadFails(dark, receipt, disk);
      var a := ToFront(files, bad);
      var b := ToFront(files, dark);
      assert FirstStop(a, receipt, disk) == 0 && FirstStop(b, receipt, disk) == 0;
      assert Verdict(a, Some(receipt), disk) != Verdict(b, Some(receipt), disk);
    } else {
      forall other: seq<string> | multiset(other) == multiset(files)
        ensures Verdict(other, Some(receipt), disk) == Verdict(files, Some(receipt), disk)
      {
        OneVerdict(files, other, receipt, disk);
      }
    }
  }

  lemma ToFront(files: seq<string>, f: string) returns (other: seq<string>)
    requires f in files
    ensures multiset(other) == multiset(files) && other != [] && other[0] == f
  {
    var i :| 0 <= i < |files| && files[i] == f;
    other := [f] + files[..i] + files[i + 1..];
    assert files == files[..i] + [f] + files[i + 1..];
  }

  lemma SameMembers<T>(a: seq<T>, b: seq<T>)
    requires multiset(a) == multiset(b)
    ensures forall x :: x in a <==> x in b
  {
    forall x ensures x in a <==> x in b {
      assert x in a <==> x in multiset(a);
      assert x in b <==> x in multiset(b);
    }
  }

  lemma OneVerdict(a: seq<string>, b: seq<string>, receipt: map<string, string>, disk: string -> OnDisk)
    requires a != [] && multiset(b) == multiset(a)
    requires !((exists f :: f in a && Mismatch(f, receipt, disk)) && (exists f :: f in a && ReadFails(f, receipt, disk)))
    ensures Verdict(b, Some(receipt), disk) == Verdict(a, Some(receipt), disk)
  {
    SameMembers(a, b);
    assert a[0] in a && a[0] in b;
    if exists f :: f in a && ReadFails(f, receipt, disk) {
      var f :| f in a && ReadFails(f, receipt, disk);
      var n, m := FirstStop(a, receipt, disk), FirstStop(b, receipt, disk);
      assert n < |a| && m < |b|;
      assert a[n] in a && b[m] in a;
    } else {
      VerdictMeaning(a, receipt, disk);
      VerdictMeaning(b, receipt, disk);
    }
  }

  /** A measurement whose stored source state came from this checkout. */
  predicate CheckedAgainst(m: Measurement, disk: string -> OnDisk) {
    Verdict(m.files, Some(m.hashes), disk) == Checked(m.source)
  }

  /** A matching measurement pins every file it measured to the checkout's digest. */
  lemma MatchPinsFile(m: Measurement, disk: string -> OnDisk, file: string)
    requires CheckedAgainst(m, disk) && m.source == MatchesReceipt && file in m.files
    ensures file in m.hashes && disk(file) == Digest(m.hashes[file])
  {
    var i :| 0 <= i < |m.files| && m.files[i] == file;
    assert !Missing(m.files[i], m.hashes);
  }

  /** The scan fails exactly when it meets a file it cannot read before any that mismatches. */
  lemma VerdictFails(files: seq<string>, receipt: map<string, string>, disk: string -> OnDisk)
    ensures Verdict(files, Some(receipt), disk).Failed? <==>
              exists i :: 0 <= i < |files| && ReadFails(files[i], receipt, disk)
                          && forall j :: 0 <= j < i ==> !Mismatch(files[j], receipt, disk)
  {
    var n := FirstStop(files, receipt, disk);
    if i :| 0 <= i < |files| && ReadFails(files[i], receipt, disk) && forall j :: 0 <= j < i ==> !Mismatch(files[j], receipt, disk) {
      assert n <= i;
    }
  }

  /** Without hashes, or without files, nothing is verified. */
  lemma NothingToVerify(files: seq<string>, receipt: Option<map<string, string>>, disk: string -> OnDisk)
    requires receipt.None? || files == []
    ensures Verdict(files, receipt, disk) == Checked(Unverified)
  {
  }
}
