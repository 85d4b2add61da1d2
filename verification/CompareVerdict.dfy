/** The status `compare` reports, read in both directions. */
module CompareVerdict {
  import opened Text
  import opened Keys
  import opened Measurements
  import opened Compare

  /** `full`: the recorded scope; `hashed`: the receipt lists source hashes at all. */
  datatype Side = Side(m: Measurement, full: bool, hashed: bool)

  datatype Status = FailedTests | Incomparable | Limited | Regression | NoGain | Improved

  predicate SameHash(a: Measurement, b: Measurement, file: string) {
    file in a.hashes && file in b.hashes && a.hashes[file] == b.hashes[file]
  }

  predicate OtherHash(a: Measurement, b: Measurement, file: string) {
    file in a.hashes && file in b.hashes && a.hashes[file] != b.hashes[file]
  }

  /** `compatible_context`. */
  predicate Compatible(current: Side, base: Side) {
    && current.m.buildId.Some? && base.m.buildId == current.m.buildId && current.hashed && base.hashed
    && forall file :: file in current.m.files + base.m.files ==> SameHash(current.m, base.m, file)
  }

  predicate Conflicting(current: Side, base: Side) {
    && current.m.buildId.Some? && base.m.buildId.Some?
    && (current.m.buildId != base.m.buildId
        || exists file :: file in current.m.files + base.m.files && OtherHash(current.m, base.m, file))
  }

  predicate Comparable(current: Side, base: Side, f: Filter) {
    && !Conflicting(current, base) && current.m.format == base.m.format
    && Selected(current.m.rows, f) != {} && Selected(base.m.rows, f) != {}
    && Measured(current.m.rows, f) && Measured(base.m.rows, f)
  }

  predicate Full(current: Side, base: Side, asked: bool) {
    asked && current.full && base.full && Compatible(current, base)
  }

  function StatusOf(current: Side, base: Side, asked: bool, f: Filter): Status {
    if current.m.tests.TestsFailed? then FailedTests
    else if !Comparable(current, base, f) then Incomparable
    else if !Compatible(current, base) then Limited
    else if Full(current, base, asked) && Lost(base.m.rows, current.m.rows, f) != {} then Regression
    else if Gained(base.m.rows, current.m.rows, f) == {} then NoGain
    else Improved
  }

  datatype Changes = Changes(newlyObserved: nat, notObserved: nat, added: nat, removed: nat, regressed: Option<nat>)

  datatype Comparison = Comparison(status: Status, scopeFull: bool, changes: Option<Changes>)

  /** `compare`: the status, the scope it really has, and the counted changes. */
  function CompareReports(current: Side, base: Side, asked: bool, f: Filter): Comparison {
    var before, after, full := base.m.rows, current.m.rows, Full(current, base, asked);
    var lost := |Lost(before, after, f)|;
    Comparison(StatusOf(current, base, asked, f), full,
               if !Comparable(current, base, f) then None
               else Some(Changes(|Gained(before, after, f)|, lost, |Added(before, after, f)|, |Removed(before, after, f)|,
                                 if full then Some(lost) else None)))
  }

  /** Both sides know one build, and every file either measured has one hash in both receipts. */
  ghost predicate Verifies(a: Side, b: Side) {
    && a.m.buildId.Some? && b.m.buildId == a.m.buildId && a.hashed && b.hashed
    && (forall file :: file in a.m.files || file in b.m.files ==>
          file in a.m.hashes && file in b.m.hashes && a.m.hashes[file] == b.m.hashes[file])
  }

  /** Both builds are known, and they differ or a measured file has two different hashes. */
  ghost predicate Contradict(a: Side, b: Side) {
    && a.m.buildId.Some? && b.m.buildId.Some?
    && (a.m.buildId.value != b.m.buildId.value
        || exists file :: (file in a.m.files || file in b.m.files) && file in a.m.hashes && file in b.m.hashes
                          && a.m.hashes[file] != b.m.hashes[file])
  }

  /** A side has selected rows, all of them measured. */
  ghost predicate Detailed(rows: Rows, f: Filter) {
    (exists k :: k in rows && f(rows[k])) && forall k :: k in rows && f(rows[k]) ==> rows[k].hits >= 0
  }

  ghost predicate CanCompare(current: Side, base: Side, f: Filter) {
    !Contradict(current, base) && current.m.format == base.m.format && Detailed(current.m.rows, f) && Detailed(base.m.rows, f)
  }

  /** Some selected row that the older side covers is gone or has no hits now. */
  ghost predicate LosesRow(before: Rows, after: Rows, f: Filter) {
    exists k :: k in before && f(before[k]) && before[k].hits > 0 && (k in after ==> after[k].hits == 0)
  }

  /** Some selected row is covered now and had no hits before. */
  ghost predicate GainsRow(before: Rows, after: Rows, f: Filter) {
    exists k :: k in after && f(after[k]) && after[k].hits > 0 && k in before && before[k].hits == 0
  }

  lemma GuardMeaning(current: Side, base: Side, f: Filter)
    ensures Compatible(current, base) <==> Verifies(current, base)
    ensures Comparable(current, base, f) <==> CanCompare(current, base, f)
  {
    assert forall file :: file in current.m.files + base.m.files <==> file in current.m.files || file in base.m.files;
    assert Conflicting(current, base) <==> Contradict(current, base) by {
      if file :| file in current.m.files + base.m.files && OtherHash(current.m, base.m, file) {
        assert file in current.m.files || file in base.m.files;
      }
      if file :| (file in current.m.files || file in base.m.files) && OtherHash(current.m, base.m, file) {
        assert file in current.m.files + base.m.files;
      }
    }
    SelectedSome(current.m.rows, f);
    SelectedSome(base.m.rows, f);
  }

  lemma SelectedSome(rows: Rows, f: Filter)
    ensures Selected(rows, f) != {} <==> exists k :: k in rows && f(rows[k])
  {
    if k :| k in rows && f(rows[k]) {
      assert k in Selected(rows, f);
    }
    if Selected(rows, f) != {} {
      var k :| k in Selected(rows, f);
    }
  }

  lemma ChangeMeaning(before: Rows, after: Rows, f: Filter)
    ensures Lost(before, after, f) != {} <==> LosesRow(before, after, f)
    ensures Gained(before, after, f) != {} <==> GainsRow(before, after, f)
  {
    if k :| k in before && f(before[k]) && before[k].hits > 0 && (k in after ==> after[k].hits == 0) {
      assert k in Lost(before, after, f);
    }
    if k :| k in after && f(after[k]) && after[k].hits > 0 && k in before && before[k].hits == 0 {
      assert k in Gained(before, after, f);
    }
    if Lost(before, after, f) != {} {
      var k :| k in Lost(before, after, f);
    }
    if Gained(before, after, f) != {} {
      var k :| k in Gained(before, after, f);
    }
  }

  /** What each status says, of any two reports, scope and filter: failed tests first, then
      whether the reports can be compared, then whether they are verified; a regression only
      for full, verified scopes in which a row is lost; otherwise whether a row is gained. */
  lemma StatusMeaning(current: Side, base: Side, asked: bool, f: Filter)
    ensures var s, failed := StatusOf(current, base, asked, f), current.m.tests.TestsFailed?;
            var compared, verified := CanCompare(current, base, f), Verifies(current, base);
            var full := asked && current.full && base.full && verified;
            var loses, gains := LosesRow(base.m.rows, current.m.rows, f), GainsRow(base.m.rows, current.m.rows, f);
            && (s.FailedTests? <==> failed)
            && (s.Incomparable? <==> !failed && !compared)
            && (s.Limited? <==> !failed && compared && !verified)
            && (s.Regression? <==> !failed && compared && full && loses)
            && (s.NoGain? <==> !failed && compared && verified && !(full && loses) && !gains)
            && (s.Improved? <==> !failed && compared && verified && !(full && loses) && gains)
  {
    GuardMeaning(current, base, f);
    ChangeMeaning(base.m.rows, current.m.rows, f);
  }

  /** Changes are reported exactly for comparable reports, a regression count only for full
      ones; the scope is full only when it was asked for, recorded on both sides, and verified. */
  lemma ChangesMeaning(current: Side, base: Side, asked: bool, f: Filter)
    ensures var r := CompareReports(current, base, asked, f);
            && (r.scopeFull <==> asked && current.full && base.full && Verifies(current, base))
            && (r.changes.Some? <==> CanCompare(current, base, f))
            && (r.changes.Some? ==> (r.changes.value.regressed.Some? <==> r.scopeFull)
                                    && (r.scopeFull ==> r.changes.value.regressed.value == r.changes.value.notObserved))
  {
    GuardMeaning(current, base, f);
  }

  /** The four counts, for sets given by what their rows are. */
  lemma ChangeCounts(current: Side, base: Side, asked: bool, f: Filter,
                     gained: set<string>, lost: set<string>, added: set<string>, removed: set<string>)
    requires CompareReports(current, base, asked, f).changes.Some?
    requires forall k :: k in gained <==>
               k in current.m.rows && f(current.m.rows[k]) && current.m.rows[k].hits > 0 && k in base.m.rows && base.m.rows[k].hits == 0
    requires forall k :: k in lost <==>
               k in base.m.rows && f(base.m.rows[k]) && base.m.rows[k].hits > 0 && (k in current.m.rows ==> current.m.rows[k].hits == 0)
    requires forall k :: k in added <==> k in current.m.rows && f(current.m.rows[k]) && k !in base.m.rows
    requires forall k :: k in removed <==> k in base.m.rows && f(base.m.rows[k]) && k !in current.m.rows
    ensures var c := CompareReports(current, base, asked, f).changes.value;
            c.newlyObserved == |gained| && c.notObserved == |lost| && c.added == |added| && c.removed == |removed|
  {
    var before, after := base.m.rows, current.m.rows;
    assert gained == Gained(before, after, f);
    assert lost == Lost(before, after, f);
    assert added == Added(before, after, f);
    assert removed == Removed(before, after, f);
  }

  /** The guards do not care which side is current; a verified pair is never in conflict. */
  lemma GuardsSymmetric(a: Side, b: Side, asked: bool, f: Filter)
    ensures Compatible(a, b) == Compatible(b, a) && Comparable(a, b, f) == Comparable(b, a, f)
    ensures Full(a, b, asked) == Full(b, a, asked)
    ensures Compatible(a, b) ==> !Conflicting(a, b)
  {
    assert forall file :: file in a.m.files + b.m.files <==> file in b.m.files + a.m.files;
    assert forall file :: SameHash(a.m, b.m, file) <==> SameHash(b.m, a.m, file);
    assert forall file :: OtherHash(a.m, b.m, file) <==> OtherHash(b.m, a.m, file);
    assert forall file :: SameHash(a.m, b.m, file) ==> !OtherHash(a.m, b.m, file);
  }

  /** A full improvement read backwards is a regression, unless the older tests failed. */
  lemma ImprovementReversed(current: Side, base: Side, f: Filter)
    requires Full(current, base, true) && StatusOf(current, base, true, f) == Improved
    ensures StatusOf(base, current, true, f) == if base.m.tests.TestsFailed? then FailedTests else Regression
  {
    GuardsSymmetric(current, base, true, f);
    Swap(base.m.rows, current.m.rows, f);
    var k :| k in Gained(base.m.rows, current.m.rows, f);
    assert k in Lost(current.m.rows, base.m.rows, f);
  }

  lemma CoveredSame(before: Rows, after: Rows, f: Filter)
    requires SelectsAlike(before, after, f) && Measured(before, f) && Measured(after, f)
    ensures Lost(before, after, f) == {} && Lost(after, before, f) == {} <==> Covered(before, f) == Covered(after, f)
  {
    var b, a := Covered(before, f), Covered(after, f);
    forall k | k in b ensures k in a <==> k !in Lost(before, after, f) { }
    forall k | k in a ensures k in b <==> k !in Lost(after, before, f) { }
    assert Lost(before, after, f) <= b && Lost(after, before, f) <= a;
  }

  /** Full comparisons report no gain in both directions exactly when both sides cover the same rows. */
  lemma NoGainBothWays(current: Side, base: Side, f: Filter)
    requires Full(current, base, true) && Comparable(current, base, f)
    requires !current.m.tests.TestsFailed? && !base.m.tests.TestsFailed?
    requires SelectsAlike(base.m.rows, current.m.rows, f)
    ensures StatusOf(current, base, true, f) == NoGain && StatusOf(base, current, true, f) == NoGain
       <==> Covered(base.m.rows, f) == Covered(current.m.rows, f)
  {
    GuardsSymmetric(current, base, true, f);
    CoveredSame(base.m.rows, current.m.rows, f);
    Swap(base.m.rows, current.m.rows, f);
    Swap(current.m.rows, base.m.rows, f);
  }

  // ---------- colliding keys ----------

  predicate Keyed(rows: Rows) { forall k :: k in rows ==> RowKey(rows[k]) == k }

  /** One shared row that only the older side selects disappears without any change reported. */
  lemma UnreportedDrop(before: Rows, after: Rows, f: Filter, k: string)
    requires k in before && before.Keys == after.Keys && f(before[k]) && !f(after[k])
    requires before[k].hits > 0 && after[k].hits > 0
    requires forall x :: x in before && x != k ==> before[x] == after[x]
    ensures Gained(before, after, f) == Lost(before, after, f) == Added(before, after, f) == Removed(before, after, f) == {}
    ensures |Covered(after, f)| == |Covered(before, f)| - 1
    ensures Live(Leaving(before, after, f), before, after) == {k} && Entering(before, after, f) == {}
  {
    assert Covered(before, f) == Covered(after, f) + {k};
  }

  function Row(path: string, symbol: string): Observation {
    Observation(path, symbol, Span(1, 0, 1, 9), Regions, "", 1, None, None)
  }

  lemma NoneContains(s: string)
    requires |s| == 5 && s[1] != ':' && s[1] != 'a' && s[2] != 'a'
    ensures !Contains(s, "a:b")
  {
    forall i | 0 <= i <= 2 ensures !At(s, "a:b", i) {
      assert s[i..i + 3][1] == s[i + 1] && s[i..i + 3][0] == s[i];
    }
  }

  /** The query "a:b" finds the text in the path, and not across path and symbol. */
  lemma QueryFinds(f: Filter)
    requires f == ByText(Regions, Some("a:b"), s => s)
    ensures f(Row("a:b", "c")) && f(Row("a:b", "z")) && !f(Row("a", "b:c"))
  {
    var x, y, z := Row("a:b", "c"), Row("a", "b:c"), Row("a:b", "z");
    assert At("a:b c", "a:b", 0) && At("a:b z", "a:b", 0);
    assert x.path + " " + x.symbol == "a:b c" && z.path + " " + z.symbol == "a:b z" && y.path + " " + y.symbol == "a b:c";
    NoneContains("a b:c");
  }

  lemma CollidingKeys()
    ensures RowKey(Row("a:b", "c")) == RowKey(Row("a", "b:c")) && RowKey(Row("a:b", "c")) != RowKey(Row("a:b", "z"))
  {
    var s := Span(1, 0, 1, 9);
    ObservationKeyAmbiguous(s);
    if RowKey(Row("a:b", "c")) == RowKey(Row("a:b", "z")) {
      ObservationKeyInjective("regions", "a:b", "c", s, "", "regions", "a:b", "z", s, "");
    }
  }

  /** Two files whose names collide with a function's name: the filter "a:b" then reports a
      comparison in which a covered row is gone and nothing changed, because one live shared
      row leaves the selection and none enters it. */
  lemma FilterBreaksTheBooks() returns (before: Rows, after: Rows, f: Filter)
    ensures Keyed(before) && Keyed(after) && f == ByText(Regions, Some("a:b"), s => s)
    ensures Measured(before, f) && Measured(after, f) && Selected(before, f) != {} && Selected(after, f) != {}
    ensures Gained(before, after, f) == Lost(before, after, f) == Added(before, after, f) == Removed(before, after, f) == {}
    ensures |Covered(after, f)| == |Covered(before, f)| - 1
    ensures |Live(Leaving(before, after, f), before, after)| == 1 && Entering(before, after, f) == {}
  {
    f := ByText(Regions, Some("a:b"), s => s);
    QueryFinds(f);
    CollidingKeys();
    before, after := BreakBooks(f, Row("a:b", "c"), Row("a", "b:c"), Row("a:b", "z"));
  }

  lemma BreakBooks(f: Filter, x: Observation, y: Observation, z: Observation) returns (before: Rows, after: Rows)
    requires RowKey(x) == RowKey(y) && RowKey(x) != RowKey(z) && f(x) && !f(y) && f(z)
    requires x.hits > 0 && y.hits > 0 && z.hits > 0
    ensures Keyed(before) && Keyed(after)
    ensures Measured(before, f) && Measured(after, f) && Selected(before, f) != {} && Selected(after, f) != {}
    ensures Gained(before, after, f) == Lost(before, after, f) == Added(before, after, f) == Removed(before, after, f) == {}
    ensures |Covered(after, f)| == |Covered(before, f)| - 1
    ensures |Live(Leaving(before, after, f), before, after)| == 1 && Entering(before, after, f) == {}
  {
    var k, l := RowKey(x), RowKey(z);
    before, after := map[k := x, l := z], map[k := y, l := z];
    assert l in Selected(before, f) && l in Selected(after, f);
    UnreportedDrop(before, after, f, k);
  }

  /** The filter of a comparison: the metric, and the query inside path or function. */
  lemma FilterMeaning(metric: Metric, query: Option<string>, lower: string -> string, o: Observation)
    ensures ByText(metric, query, lower)(o) <==>
              o.kind == metric && (query.Some? ==> Occurs(lower(query.value), lower(o.path + " " + o.symbol)))
  {
    if query.Some? {
      ContainsOccurs(lower(o.path + " " + o.symbol), lower(query.value));
    }
  }
}
