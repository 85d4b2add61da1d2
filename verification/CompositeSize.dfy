/** The denominator of a composite, and its component summaries. */
module CompositeSize {
  import opened Keys
  import opened Composite
  import opened Counting

  // ---------- the denominator ----------

  function RegionCount(es: seq<Entry>): nat {
    if es == [] then 0 else RegionCount(es[..|es| - 1]) + |es[|es| - 1].regions|
  }

  predicate DistinctKeys(ps: seq<Keyed>) {
    forall a, b :: 0 <= a < b < |ps| ==> ps[a].key != ps[b].key
  }

  lemma {:induction false} PairKeys(ps: seq<Keyed>, key: string)
    ensures key in FromPairs(ps) <==> exists p :: p in ps && p.key == key
    ensures key in FromPairs(ps) ==> Keyed(key, FromPairs(ps)[key]) in ps
  {
    if ps != [] {
      var rest, last := ps[..|ps| - 1], ps[|ps| - 1];
      PairKeys(rest, key);
      assert forall p :: p in ps <==> p in rest || p == last;
    }
  }

  lemma {:induction false} PairCount(ps: seq<Keyed>)
    ensures |FromPairs(ps)| <= |ps|
    ensures |FromPairs(ps)| == |ps| <==> DistinctKeys(ps)
  {
    if ps != [] {
      var rest, last := ps[..|ps| - 1], ps[|ps| - 1];
      PairCount(rest);
      PairKeys(rest, last.key);
      var m := FromPairs(rest);
      assert FromPairs(ps).Keys == m.Keys + {last.key};
      DistinctLast(ps);
    }
  }

  lemma DistinctLast(ps: seq<Keyed>)
    requires ps != []
    ensures DistinctKeys(ps) <==>
              DistinctKeys(ps[..|ps| - 1]) && !exists p :: p in ps[..|ps| - 1] && p.key == ps[|ps| - 1].key
  {
    var n := |ps| - 1;
    var rest := ps[..n];
    if DistinctKeys(rest) && !exists p :: p in rest && p.key == ps[n].key {
      forall a, b | 0 <= a < b < |ps| ensures ps[a].key != ps[b].key {
        assert rest[a] in rest;
      }
    }
    if DistinctKeys(ps) {
      forall p | p in rest ensures p.key != ps[n].key {
        var a :| 0 <= a < n && rest[a] == p;
        assert ps[a].key != ps[n].key;
      }
    }
  }

  lemma {:induction false} PairTotal(es: seq<Entry>)
    ensures |AllPairs(es)| == RegionCount(es)
  {
    if es != [] {
      PairTotal(es[..|es| - 1]);
    }
  }

  /** The denominator never exceeds the number of production regions, and equals it exactly
      when no two of them are formatted to the same key. */
  lemma DenominatorIff(es: seq<Entry>)
    ensures |ExpectedOf(es)| <= RegionCount(es)
    ensures |ExpectedOf(es)| == RegionCount(es) <==> DistinctKeys(AllPairs(es))
  {
    PairTotal(es);
    PairCount(AllPairs(es));
  }

  /** What `parse_inventory` guarantees: no logical source twice, no region twice in an entry. */
  predicate Parsed(es: seq<Entry>) {
    && (forall a, b :: 0 <= a < b < |es| ==> es[a].source != es[b].source)
    && forall e :: e in es ==> forall a, b :: 0 <= a < b < |e.regions| ==> e.regions[a] != e.regions[b]
  }

  predicate SourcesPlain(es: seq<Entry>) {
    forall e :: e in es ==> ':' !in e.source
  }

  predicate DiscriminatorsPlain(es: seq<Entry>) {
    forall e, r :: e in es && r in e.regions ==> ':' !in r.discriminator
  }

  /** A pair that came from an entry of the list. */
  predicate FromEntry(es: seq<Entry>, p: Keyed) {
    p.expected.entry in es && p.expected.region in p.expected.entry.regions
    && p.key == KeyOf(p.expected.entry.source, p.expected.region)
  }

  lemma {:induction false} PairOrigin(es: seq<Entry>, p: Keyed)
    requires p in AllPairs(es)
    ensures FromEntry(es, p)
  {
    var rest, last := es[..|es| - 1], es[|es| - 1];
    if p in AllPairs(rest) {
      PairOrigin(rest, p);
    } else {
      var j :| 0 <= j < |last.regions| && EntryPairs(last)[j] == p;
      assert last.regions[j] in last.regions;
    }
  }

  lemma SameKeySamePair(es: seq<Entry>, p: Keyed, q: Keyed)
    requires SourcesPlain(es) || DiscriminatorsPlain(es)
    requires FromEntry(es, p) && FromEntry(es, q) && p.key == q.key
    ensures p.expected.entry.source == q.expected.entry.source && p.expected.region == q.expected.region
  {
    var r, s := p.expected.region, q.expected.region;
    RegionKeyInjective(p.expected.entry.source, r.startLine, r.endLine, r.discriminator,
                       q.expected.entry.source, s.startLine, s.endLine, s.discriminator);
  }

  lemma SplitDistinct(a: seq<Keyed>, b: seq<Keyed>)
    requires DistinctKeys(a) && DistinctKeys(b)
    requires forall x, y :: 0 <= x < |a| && 0 <= y < |b| ==> a[x].key != b[y].key
    ensures DistinctKeys(a + b)
  {
  }

  /** In a parsed inventory whose sources, or whose discriminators, hold no colon, every
      production region counts once. */
  lemma {:induction false} PlainKeysDistinct(es: seq<Entry>)
    requires Parsed(es) && (SourcesPlain(es) || DiscriminatorsPlain(es))
    ensures DistinctKeys(AllPairs(es))
  {
    if es != [] {
      var n := |es| - 1;
      var rest, last := es[..n], es[n];
      assert forall e :: e in rest ==> e in es;
      PlainKeysDistinct(rest);
      var a, b := AllPairs(rest), EntryPairs(last);
      assert forall e :: e in rest ==> e.source != last.source;
      forall x, y | 0 <= x < y < |b| ensures b[x].key != b[y].key {
        assert last in es && last.regions[x] in last.regions && last.regions[y] in last.regions;
        if b[x].key == b[y].key {
          SameKeySamePair(es, b[x], b[y]);
        }
      }
      forall x, y | 0 <= x < |a| && 0 <= y < |b| ensures a[x].key != b[y].key {
        assert a[x] in a;
        PairOrigin(rest, a[x]);
        assert last.regions[y] in last.regions;
        if a[x].key == b[y].key {
          SameKeySamePair(es, a[x], b[y]);
        }
      }
      SplitDistinct(a, b);
    }
  }

  lemma DenominatorIsRegionCount(es: seq<Entry>)
    requires Parsed(es) && (SourcesPlain(es) || DiscriminatorsPlain(es))
    ensures |ExpectedOf(es)| == RegionCount(es)
  {
    PlainKeysDistinct(es);
    DenominatorIff(es);
  }

  /** Two sources whose regions are formatted alike (`RegionKeyAmbiguous` names two) lose one
      region from the denominator although the inventory is accepted. */
  lemma DenominatorCanShrink(a: Entry, b: Entry, r: Region, q: Region)
    requires a.source != b.source && a.regions == [r] && b.regions == [q] && KeyOf(a.source, r) == KeyOf(b.source, q)
    ensures Parsed([a] + [b]) && RegionCount([a] + [b]) == 2 && |ExpectedOf([a] + [b])| < 2
  {
    assert ([a] + [b])[..1] == [a] && [a][..0] == [];
    assert RegionCount([a]) == 1;
    var ps := AllPairs([a] + [b]);
    assert AllPairs([a]) == [] + EntryPairs(a) && ps == AllPairs([a]) + EntryPairs(b);
    assert ps[0] == EntryPairs(a)[0] && ps[1] == EntryPairs(b)[0];
    assert ps[0].key == ps[1].key && !DistinctKeys(ps);
    DenominatorIff([a] + [b]);
  }

  // ---------- component summaries ----------

  datatype Family = RustFamily | PythonFamily | JavascriptFamily | OtherFamily

  function FamilyOf(l: Language): Family {
    match l
    case Rust => RustFamily
    case Wgsl => RustFamily
    case Wasm => RustFamily
    case Python => PythonFamily
    case Javascript => JavascriptFamily
    case Js => JavascriptFamily
    case OtherLanguage(_) => OtherFamily
  }

  datatype Summary = Summary(covered: nat, total: nat, complete: bool)

  function FamilyKeys(expected: map<string, Expected>, f: Family): set<string> {
    set key | key in expected && FamilyOf(expected[key].entry.language) == f
  }

  /** `component_summaries` for one reported family. */
  function SummaryOf(expected: map<string, Expected>, covered: set<string>, reasons: set<Reason>, f: Family): Summary {
    var keys := FamilyKeys(expected, f);
    Summary(|keys * covered|, |keys|, keys != {} && keys <= covered && reasons == {})
  }

  /** The families split both the denominator and the covered regions without loss. */
  lemma SummariesAddUp(expected: map<string, Expected>, covered: set<string>, reasons: set<Reason>)
    requires covered <= expected.Keys
    ensures var r, p, j, o := SummaryOf(expected, covered, reasons, RustFamily), SummaryOf(expected, covered, reasons, PythonFamily),
                              SummaryOf(expected, covered, reasons, JavascriptFamily), SummaryOf(expected, covered, reasons, OtherFamily);
            && r.total + p.total + j.total + o.total == |expected|
            && r.covered + p.covered + j.covered + o.covered == |covered|
  {
    var r, p, j, o := FamilyKeys(expected, RustFamily), FamilyKeys(expected, PythonFamily),
                      FamilyKeys(expected, JavascriptFamily), FamilyKeys(expected, OtherFamily);
    SplitFour(expected.Keys, r, p, j, o);
    SplitFour(covered, r * covered, p * covered, j * covered, o * covered);
  }

  lemma SplitFour<T>(all: set<T>, a: set<T>, b: set<T>, c: set<T>, d: set<T>)
    requires a !! b && a !! c && a !! d && b !! c && b !! d && c !! d
    requires forall x :: x in all <==> x in a || x in b || x in c || x in d
    ensures |all| == |a| + |b| + |c| + |d|
  {
    Apart(a + b, a, b);
    Apart(a + b + c, a + b, c);
    Apart(all, a + b + c, d);
  }

  /** Rust counts rust, wgsl and wasm; javascript counts javascript and js. */
  lemma FamilyMeaning(expected: map<string, Expected>, key: string)
    ensures key in FamilyKeys(expected, RustFamily) <==> key in expected && expected[key].entry.language in {Rust, Wgsl, Wasm}
    ensures key in FamilyKeys(expected, PythonFamily) <==> key in expected && expected[key].entry.language == Python
    ensures key in FamilyKeys(expected, JavascriptFamily) <==> key in expected && expected[key].entry.language in {Javascript, Js}
  {
  }

  /** A family is complete exactly when it has regions, all are covered, and nothing blocks. */
  lemma SummaryMeaning(expected: map<string, Expected>, covered: set<string>, reasons: set<Reason>, f: Family)
    ensures var s := SummaryOf(expected, covered, reasons, f);
            && s.total == |FamilyKeys(expected, f)| && s.covered == |set key | key in FamilyKeys(expected, f) && key in covered|
            && (s.complete <==> s.total > 0 && s.covered == s.total && reasons == {})
  {
    var keys := FamilyKeys(expected, f);
    assert keys * covered == set key | key in keys && key in covered;
    Inside(keys * covered, keys);
    assert keys * covered == keys <==> keys <= covered;
  }

  /** Of several regions with one key the last one inserted is kept. */
  lemma {:induction false} LastPairKept(ps: seq<Keyed>, n: nat)
    requires n < |ps| && forall m :: n < m < |ps| ==> ps[m].key != ps[n].key
    ensures ps[n].key in FromPairs(ps) && FromPairs(ps)[ps[n].key] == ps[n].expected
  {
    var last := |ps| - 1;
    if n < last {
      LastPairKept(ps[..last], n);
      assert ps[last].key != ps[n].key;
    }
  }
}
