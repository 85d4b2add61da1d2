/** `insert`, `compatible_context` and `compare` of src/query.rs: two measurements row by row. */
module Compare {
  import opened Text
  import opened Keys
  import opened Measurements
  import opened Counting

  type Rows = map<string, Observation>

  // ---------- building the row map ----------

  /** `insert`: a repeated key keeps its first row with the larger count. */
  function Insert(rows: Rows, o: Observation, key: Observation -> string): Rows {
    var k := key(o);
    if k !in rows then rows[k := o]
    else if rows[k].hits < o.hits then rows[k := rows[k].(hits := o.hits)] else rows
  }

  /** The row of a key: one of its rows, with the maximum of the counts given for the key. */
  ghost predicate IsRow(list: seq<Observation>, k: string, row: Observation, key: Observation -> string) {
    && (forall o :: o in list && key(o) == k ==> o.hits <= row.hits)
    && (exists o :: o in list && key(o) == k && o.hits == row.hits)
    && (exists o :: o in list && key(o) == k && Bare(o) == Bare(row))
  }

  function Bare(o: Observation): Observation { o.(hits := 0) }

  ghost predicate Built(list: seq<Observation>, rows: Rows, key: Observation -> string) {
    && (forall o :: o in list ==> key(o) in rows)
    && (forall k :: k in rows ==> IsRow(list, k, rows[k], key))
  }

  lemma OtherRow(list: seq<Observation>, k: string, row: Observation, o: Observation, key: Observation -> string)
    requires IsRow(list, k, row, key) && (key(o) == k ==> o.hits <= row.hits)
    ensures IsRow(list + [o], k, row, key)
  {
    assert forall p :: p in list ==> p in list + [o];
  }

  lemma LargerRow(list: seq<Observation>, row: Observation, o: Observation, key: Observation -> string)
    requires IsRow(list, key(o), row, key) && row.hits < o.hits
    ensures IsRow(list + [o], key(o), row.(hits := o.hits), key)
  {
    assert forall p :: p in list ==> p in list + [o];
    assert o in list + [o];
  }

  lemma FirstRow(list: seq<Observation>, o: Observation, key: Observation -> string)
    requires forall p :: p in list ==> key(p) != key(o)
    ensures IsRow(list + [o], key(o), o, key)
  {
    assert o in list + [o];
  }

  lemma InsertBuilds(list: seq<Observation>, rows: Rows, o: Observation, key: Observation -> string)
    requires Built(list, rows, key)
    ensures Built(list + [o], Insert(rows, o, key), key)
  {
    var k, rows' := key(o), Insert(rows, o, key);
    forall x | x in rows' ensures IsRow(list + [o], x, rows'[x], key) {
      if k !in rows && x == k {
        FirstRow(list, o, key);
      } else if x == k && rows[k].hits < o.hits {
        LargerRow(list, rows[k], o, key);
      } else {
        OtherRow(list, x, rows[x], o, key);
      }
    }
  }

  function InsertAll(list: seq<Observation>, key: Observation -> string): Rows {
    if list == [] then map[] else Insert(InsertAll(list[..|list| - 1], key), list[|list| - 1], key)
  }

  method Observe(list: seq<Observation>, key: Observation -> string) returns (rows: Rows)
    ensures rows == InsertAll(list, key)
  {
    rows := map[];
    for i := 0 to |list|
      invariant rows == InsertAll(list[..i], key)
    {
      assert list[..i + 1][..i] == list[..i];
      rows := Insert(rows, list[i], key);
    }
    assert list[..|list|] == list;
  }

  lemma {:induction false} InsertAllBuilds(list: seq<Observation>, key: Observation -> string)
    ensures Built(list, InsertAll(list, key), key)
  {
    if list != [] {
      var rest, last := list[..|list| - 1], list[|list| - 1];
      assert list == rest + [last];
      InsertAllBuilds(rest, key);
      InsertBuilds(rest, InsertAll(rest, key), last, key);
    }
  }

  /** Of several rows with one key the first is kept, whatever the counts. */
  lemma {:induction false} FirstKept(list: seq<Observation>, key: Observation -> string, i: nat)
    requires i < |list| && forall j :: 0 <= j < i ==> key(list[j]) != key(list[i])
    ensures key(list[i]) in InsertAll(list, key) && Bare(InsertAll(list, key)[key(list[i])]) == Bare(list[i])
  {
    var n := |list| - 1;
    if i < n {
      FirstKept(list[..n], key, i);
    } else {
      NotYet(list[..n], key, key(list[n]));
    }
  }

  lemma {:induction false} NotYet(list: seq<Observation>, key: Observation -> string, k: string)
    requires forall j :: 0 <= j < |list| ==> key(list[j]) != k
    ensures k !in InsertAll(list, key)
  {
    if list != [] {
      NotYet(list[..|list| - 1], key, k);
    }
  }

  /** Rows of one key differ in their counts only. */
  ghost predicate KeysTell(list: seq<Observation>, key: Observation -> string) {
    forall o, p :: o in list && p in list && key(o) == key(p) ==> Bare(o) == Bare(p)
  }

  lemma OneRow(a: seq<Observation>, b: seq<Observation>, k: string, row: Observation, other: Observation, key: Observation -> string)
    requires IsRow(a, k, row, key) && IsRow(b, k, other, key) && KeysTell(a, key)
    requires forall o :: o in a <==> o in b
    ensures row == other
  {
    var p :| p in a && key(p) == k && Bare(p) == Bare(row);
    var q :| q in b && key(q) == k && Bare(q) == Bare(other);
    assert q in a && Bare(p) == Bare(q);
    assert row.hits == other.hits;
    assert row == Bare(row).(hits := row.hits) && other == Bare(other).(hits := other.hits);
  }

  /** When keys tell rows apart, the map depends only on which rows were inserted: not on
      their order and not on repetition. */
  lemma BuiltOnce(a: seq<Observation>, r: Rows, b: seq<Observation>, s: Rows, key: Observation -> string)
    requires Built(a, r, key) && Built(b, s, key) && KeysTell(a, key)
    requires forall o :: o in a <==> o in b
    ensures r == s
  {
    assert r.Keys == s.Keys by {
      forall k ensures k in r <==> k in s {
        assert k in r ==> IsRow(a, k, r[k], key);
        assert k in s ==> IsRow(b, k, s[k], key);
      }
    }
    forall k | k in r ensures r[k] == s[k] {
      OneRow(a, b, k, r[k], s[k], key);
    }
  }

  // ---------- the changes ----------

  type Filter = Observation -> bool

  function Selected(rows: Rows, f: Filter): set<string> { set k | k in rows && f(rows[k]) }

  function Covered(rows: Rows, f: Filter): set<string> { set k | k in rows && f(rows[k]) && rows[k].hits > 0 }

  /** `newly_observed`. */
  function Gained(before: Rows, after: Rows, f: Filter): set<string> {
    set k | k in after && f(after[k]) && after[k].hits > 0 && k in before && before[k].hits == 0
  }

  /** `not_observed`. */
  function Lost(before: Rows, after: Rows, f: Filter): set<string> {
    set k | k in before && f(before[k]) && before[k].hits > 0 && (k !in after || after[k].hits == 0)
  }

  function Added(before: Rows, after: Rows, f: Filter): set<string> {
    set k | k in after && f(after[k]) && k !in before
  }

  function Removed(before: Rows, after: Rows, f: Filter): set<string> {
    set k | k in before && f(before[k]) && k !in after
  }

  function CoveredAdded(before: Rows, after: Rows, f: Filter): set<string> {
    set k | k in Added(before, after, f) && after[k].hits > 0
  }

  /** Covered rows of `rows` that the other side has too, with a count other than 0. */
  function Kept(rows: Rows, other: Rows, f: Filter): set<string> {
    set k | k in rows && f(rows[k]) && rows[k].hits > 0 && k in other && other[k].hits != 0
  }

  function Shared(rows: Rows, other: Rows, f: Filter): set<string> {
    set k | k in rows && f(rows[k]) && k in other
  }

  lemma CoveredParts(rows: Rows, other: Rows, f: Filter)
    ensures |Covered(rows, f)| == |Lost(rows, other, f)| + |Kept(rows, other, f)|
  {
    Apart(Covered(rows, f), Lost(rows, other, f), Kept(rows, other, f));
  }

  lemma SelectedParts(rows: Rows, other: Rows, f: Filter)
    ensures |Selected(rows, f)| == |Removed(rows, other, f)| + |Shared(rows, other, f)|
  {
    Apart(Selected(rows, f), Removed(rows, other, f), Shared(rows, other, f));
  }

  /** Exchanging the sides exchanges added with removed, and turns what was gained or newly
      covered into what is lost. */
  lemma Swap(before: Rows, after: Rows, f: Filter)
    ensures Added(after, before, f) == Removed(before, after, f)
    ensures Lost(after, before, f) == Gained(before, after, f) + CoveredAdded(before, after, f)
    ensures |Lost(after, before, f)| == |Gained(before, after, f)| + |CoveredAdded(before, after, f)|
  {
    Apart(Lost(after, before, f), Gained(before, after, f), CoveredAdded(before, after, f));
  }

  /** Both sides select the same shared rows, and neither has a shared selected row unmeasured. */
  ghost predicate SelectsAlike(before: Rows, after: Rows, f: Filter) {
    forall k :: k in before && k in after ==> f(before[k]) == f(after[k])
  }

  predicate Measured(rows: Rows, f: Filter) { forall k :: k in rows && f(rows[k]) ==> rows[k].hits >= 0 }

  /** Shared rows that the filter selects on the second side only. */
  function Entering(before: Rows, after: Rows, f: Filter): set<string> {
    set k | k in before && k in after && !f(before[k]) && f(after[k])
  }

  /** Shared rows that the filter selects on the first side only. */
  function Leaving(before: Rows, after: Rows, f: Filter): set<string> {
    set k | k in before && k in after && f(before[k]) && !f(after[k])
  }

  /** Of some shared rows, those with a count other than 0 on both sides; where every row was
      measured, those covered on both sides. */
  function Live(keys: set<string>, before: Rows, after: Rows): set<string> {
    set k | k in keys && k in before && k in after && before[k].hits != 0 && after[k].hits != 0
  }

  function SharedBoth(before: Rows, after: Rows, f: Filter): set<string> {
    set k | k in before && k in after && f(before[k]) && f(after[k])
  }

  lemma KeptParts(before: Rows, after: Rows, f: Filter)
    requires Measured(before, f) && Measured(after, f)
    ensures |Kept(after, before, f)| == |Live(SharedBoth(before, after, f), before, after)| + |Live(Entering(before, after, f), before, after)|
    ensures |Kept(before, after, f)| == |Live(SharedBoth(before, after, f), before, after)| + |Live(Leaving(before, after, f), before, after)|
  {
    var both := Live(SharedBoth(before, after, f), before, after);
    Apart(Kept(after, before, f), both, Live(Entering(before, after, f), before, after));
    Apart(Kept(before, after, f), both, Live(Leaving(before, after, f), before, after));
  }

  lemma SharedParts(before: Rows, after: Rows, f: Filter)
    ensures |Shared(after, before, f)| == |SharedBoth(before, after, f)| + |Entering(before, after, f)|
    ensures |Shared(before, after, f)| == |SharedBoth(before, after, f)| + |Leaving(before, after, f)|
  {
    Apart(Shared(after, before, f), SharedBoth(before, after, f), Entering(before, after, f));
    Apart(Shared(before, after, f), SharedBoth(before, after, f), Leaving(before, after, f));
  }

  /** For comparable sides, the covered counts differ by exactly the reported changes if and only
      if as many shared live rows leave the selection as enter it, and the totals differ by added
      less removed if and only if as many shared rows leave the selection as enter it. */
  lemma ConservationIff(before: Rows, after: Rows, f: Filter)
    requires Measured(before, f) && Measured(after, f)
    ensures |Covered(after, f)| - |Covered(before, f)|
         == |Gained(before, after, f)| + |CoveredAdded(before, after, f)| - |Lost(before, after, f)|
       <==> |Live(Leaving(before, after, f), before, after)| == |Live(Entering(before, after, f), before, after)|
    ensures |Selected(after, f)| - |Selected(before, f)| == |Added(before, after, f)| - |Removed(before, after, f)|
       <==> |Leaving(before, after, f)| == |Entering(before, after, f)|
  {
    CoveredParts(before, after, f);
    CoveredParts(after, before, f);
    SelectedParts(before, after, f);
    SelectedParts(after, before, f);
    Swap(before, after, f);
    Swap(after, before, f);
    KeptParts(before, after, f);
    SharedParts(before, after, f);
  }

  /** For comparable sides that select alike, nothing is lost from the books. */
  lemma Conservation(before: Rows, after: Rows, f: Filter)
    requires SelectsAlike(before, after, f) && Measured(before, f) && Measured(after, f)
    ensures |Covered(after, f)| == |Covered(before, f)| + |Gained(before, after, f)|
                                   + |CoveredAdded(before, after, f)| - |Lost(before, after, f)|
    ensures |Selected(after, f)| == |Selected(before, f)| + |Added(before, after, f)| - |Removed(before, after, f)|
  {
    ConservationIff(before, after, f);
    assert Leaving(before, after, f) == {} && Entering(before, after, f) == {};
  }

  // ---------- when both sides select alike ----------

  function ByText(metric: Metric, query: Option<string>, lower: string -> string): Filter {
    (o: Observation) => o.kind == metric && Matches(o, query, None, lower)
  }

  ghost predicate KeysAgree(before: Rows, after: Rows) {
    forall k :: k in before && k in after ==>
      (before[k].kind, before[k].path, before[k].symbol) == (after[k].kind, after[k].path, after[k].symbol)
  }

  lemma TextSelectsAlike(before: Rows, after: Rows, metric: Metric, query: Option<string>, lower: string -> string)
    requires KeysAgree(before, after)
    ensures SelectsAlike(before, after, ByText(metric, query, lower))
  {
    forall k | k in before && k in after ensures ByText(metric, query, lower)(before[k]) == ByText(metric, query, lower)(after[k]) {
      assert (before[k].kind, before[k].path, before[k].symbol) == (after[k].kind, after[k].path, after[k].symbol);
      assert before[k].path + " " + before[k].symbol == after[k].path + " " + after[k].symbol;
    }
  }

  predicate Native(o: Observation) { o.identity.None? && ':' !in o.arm }

  lemma KindNames(a: Metric, b: Metric)
    ensures ':' !in MetricName(a) && (MetricName(a) == MetricName(b) ==> a == b)
  {
    assert |"regions"| == 7 && |"branches"| == 8 && |"lines"| == 5;
  }

  /** Native rows agree wherever the keys do when no path, or no symbol, holds a colon. */
  lemma NativeAgree(a: Observation, b: Observation)
    requires Native(a) && Native(b) && RowKey(a) == RowKey(b)
    requires (':' !in a.path && ':' !in b.path) || (':' !in a.symbol && ':' !in b.symbol)
    ensures (a.kind, a.path, a.symbol) == (b.kind, b.path, b.symbol) && a.(hits := 0, cause := None) == b.(hits := 0, cause := None)
  {
    KindNames(a.kind, b.kind);
    KindNames(b.kind, a.kind);
    ObservationKeyInjective(MetricName(a.kind), a.path, a.symbol, a.span, a.arm,
                            MetricName(b.kind), b.path, b.symbol, b.span, b.arm);
  }
}
