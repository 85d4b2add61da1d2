/** What a page of groups shows: which rows make up a group, and how groups are ranked. */
module GroupingOrder {
  import opened Text
  import opened Keys
  import opened Measurements
  import opened Ordering
  import opened Counting
  import opened Grouping

  // ---------- orders, said without sort keys ----------

  /** Text a comes before text b: at the first difference a has ended or has the smaller character. */
  predicate TextBefore(a: string, b: string) {
    exists n :: 0 <= n <= |a| && n <= |b| && DiffersAt(a, b, n)
  }

  predicate DiffersAt(a: string, b: string, n: nat)
    requires n <= |a| && n <= |b|
  {
    a[..n] == b[..n] && n < |b| && (n == |a| || a[n] < b[n])
  }

  predicate SpanBefore(s: Span, t: Span) {
    || s.startLine < t.startLine
    || (s.startLine == t.startLine && s.startColumn < t.startColumn)
    || (s.startLine == t.startLine && s.startColumn == t.startColumn && s.endLine < t.endLine)
    || (s.startLine == t.startLine && s.startColumn == t.startColumn && s.endLine == t.endLine && s.endColumn < t.endColumn)
  }

  /** No cause comes before any cause. */
  predicate CauseBefore(a: Option<string>, b: Option<string>) {
    b.Some? && (a.None? || TextBefore(a.value, b.value))
  }

  predicate LocationBefore(a: Location, b: Location) {
    SpanBefore(a.span, b.span) || (a.span == b.span && TextBefore(a.arm, b.arm))
  }

  /** Larger groups first, then path, first location, symbol; at last line and cause. */
  predicate RanksBefore(a: Group, b: Group)
    requires a.locations != [] && b.locations != []
  {
    var m, n, s, t := |a.locations|, |b.locations|, a.locations[0].span, b.locations[0].span;
    || m > n
    || (m == n && TextBefore(a.key.path, b.key.path))
    || (m == n && a.key.path == b.key.path && SpanBefore(s, t))
    || (m == n && a.key.path == b.key.path && s == t && TextBefore(a.key.symbol, b.key.symbol))
    || (m == n && a.key.path == b.key.path && s == t && a.key.symbol == b.key.symbol && a.key.line < b.key.line)
    || (m == n && a.key.path == b.key.path && s == t && a.key.symbol == b.key.symbol && a.key.line == b.key.line
        && CauseBefore(a.key.cause, b.key.cause))
  }

  // ---------- sort keys compare like that ----------

  lemma {:induction false} IntsBefore(a: seq<int>, b: seq<int>) returns (n: nat)
    requires IntsLeq(a, b) && a != b
    ensures n <= |a| && n < |b| && a[..n] == b[..n] && (n == |a| || a[n] < b[n])
  {
    if a == [] || a[0] < b[0] {
      n := 0;
    } else {
      assert a == [a[0]] + a[1..] && b == [b[0]] + b[1..];
      var m := IntsBefore(a[1..], b[1..]);
      n := m + 1;
      assert a[..n] == [a[0]] + a[1..][..m] && b[..n] == [b[0]] + b[1..][..m];
    }
  }

  lemma CodesBefore(a: string, b: string)
    requires IntsLeq(Codes(a), Codes(b)) && a != b
    ensures TextBefore(a, b)
  {
    if Codes(a) == Codes(b) {
      CodesInjective(a, b);
    } else {
      var n := IntsBefore(Codes(a), Codes(b));
      forall i | 0 <= i < n ensures a[i] == b[i] {
        assert Codes(a)[..n][i] == Codes(b)[..n][i];
      }
      assert DiffersAt(a, b, n);
    }
  }

  lemma SpanCodesBefore(s: Span, t: Span)
    requires IntsLeq(SpanCodes(s), SpanCodes(t)) && s != t
    ensures SpanBefore(s, t)
  {
    var x, y := SpanCodes(s), SpanCodes(t);
    assert x != y by {
      assert x[0] != y[0] || x[1] != y[1] || x[2] != y[2] || x[3] != y[3];
    }
    var n := IntsBefore(x, y);
    forall i | 0 <= i < n ensures x[i] == y[i] {
      assert x[i] == x[..n][i] && y[i] == y[..n][i];
    }
    assert x[0] == s.startLine && x[1] == s.startColumn && x[2] == s.endLine && x[3] == s.endColumn;
    assert y[0] == t.startLine && y[1] == t.startColumn && y[2] == t.endLine && y[3] == t.endColumn;
    assert n == 0 || n == 1 || n == 2 || n == 3;
  }

  lemma CauseCodesBefore(a: Option<string>, b: Option<string>)
    requires IntsLeq(CauseCodes(a), CauseCodes(b)) && a != b
    ensures CauseBefore(a, b)
  {
    assert CauseCodes(a)[0] <= CauseCodes(b)[0];
    if a.Some? {
      assert CauseCodes(a)[1..] == Codes(a.value) && CauseCodes(b)[1..] == Codes(b.value);
      CodesBefore(a.value, b.value);
    }
  }

  lemma LeqHead(a: Key, b: Key)
    requires a != [] && b != [] && Leq(a, b)
    ensures IntsLeq(a[0], b[0]) && (a[0] == b[0] ==> Leq(a[1..], b[1..]))
  {
    IntsTotal(a[0], a[0]);
  }

  lemma LocationLeq(a: Location, b: Location)
    requires Leq(LocationOrder(a), LocationOrder(b)) && a != b
    ensures LocationBefore(a, b)
  {
    var x, y := LocationOrder(a), LocationOrder(b);
    LeqHead(x, y);
    if x[0] == y[0] {
      if a.span != b.span {
        SpanCodesBefore(a.span, b.span);
      } else {
        LeqHead(x[1..], y[1..]);
        CodesBefore(a.arm, b.arm);
      }
    } else {
      SpanCodesBefore(a.span, b.span);
    }
  }

  // ---------- ranking ----------

  /** The sort key below the count, path and first span. */
  lemma TailRank(a: GroupKey, b: GroupKey, x: Key, y: Key)
    requires x == [Codes(a.symbol), [a.line], CauseCodes(a.cause)] && y == [Codes(b.symbol), [b.line], CauseCodes(b.cause)]
    requires Leq(x, y) && (a.symbol, a.line, a.cause) != (b.symbol, b.line, b.cause)
    ensures || TextBefore(a.symbol, b.symbol)
            || (a.symbol == b.symbol && a.line < b.line)
            || (a.symbol == b.symbol && a.line == b.line && CauseBefore(a.cause, b.cause))
  {
    LeqHead(x, y);
    if a.symbol != b.symbol {
      if x[0] == y[0] {
        CodesInjective(a.symbol, b.symbol);
      } else {
        CodesBefore(a.symbol, b.symbol);
      }
    } else {
      LeqHead(x[1..], y[1..]);
      assert x[1][0] == a.line && y[1][0] == b.line;
      if a.line == b.line {
        LeqHead(x[1..][1..], y[1..][1..]);
        CauseCodesBefore(a.cause, b.cause);
      }
    }
  }

  lemma SpanRank(s: Span, t: Span, a: GroupKey, b: GroupKey, x: Key, y: Key)
    requires x == [SpanCodes(s), Codes(a.symbol), [a.line], CauseCodes(a.cause)]
    requires y == [SpanCodes(t), Codes(b.symbol), [b.line], CauseCodes(b.cause)]
    requires Leq(x, y) && (s, a.symbol, a.line, a.cause) != (t, b.symbol, b.line, b.cause)
    ensures || SpanBefore(s, t)
            || (s == t && TextBefore(a.symbol, b.symbol))
            || (s == t && a.symbol == b.symbol && a.line < b.line)
            || (s == t && a.symbol == b.symbol && a.line == b.line && CauseBefore(a.cause, b.cause))
  {
    LeqHead(x, y);
    if s != t {
      SpanCodesBefore(s, t);
    } else {
      TailRank(a, b, x[1..], y[1..]);
    }
  }

  lemma GroupLeq(a: Group, b: Group)
    requires a.locations != [] && b.locations != [] && a.key != b.key && Leq(GroupOrder(a), GroupOrder(b))
    ensures RanksBefore(a, b)
  {
    var x, y := GroupOrder(a), GroupOrder(b);
    LeqHead(x, y);
    assert x[0][0] == -|a.locations| && y[0][0] == -|b.locations|;
    if |a.locations| == |b.locations| {
      LeqHead(x[1..], y[1..]);
      if a.key.path != b.key.path {
        if x[1] == y[1] {
          CodesInjective(a.key.path, b.key.path);
        } else {
          CodesBefore(a.key.path, b.key.path);
        }
      } else {
        SpanRank(a.locations[0].span, b.locations[0].span, a.key, b.key, x[1..][1..], y[1..][1..]);
      }
    }
  }

  /** Every page is ranked: the larger group first, then by path, first location and symbol. */
  lemma GroupsRanked(rows: seq<Observation>, i: nat, j: nat)
    requires i < j < |GroupsOf(rows)|
    ensures GroupsOf(rows)[i].locations != [] && GroupsOf(rows)[j].locations != []
    ensures RanksBefore(GroupsOf(rows)[i], GroupsOf(rows)[j])
  {
    GroupsPartition(rows);
    SortSorted(Collected(rows), GroupOrder);
    GroupLeq(GroupsOf(rows)[i], GroupsOf(rows)[j]);
  }

  // ---------- members ----------

  /** A row belongs to the group of its path, function and cause; without a function, of its line. */
  predicate Belongs(o: Observation, k: GroupKey) {
    && o.path == k.path && o.symbol == k.symbol && o.cause == k.cause
    && k.line == (if o.symbol == "" then o.span.startLine else 0)
  }

  /** The places of the rows that belong, in input order. */
  function Places(rows: seq<Observation>, k: GroupKey): seq<Location> {
    if rows == [] then []
    else
      var last := rows[|rows| - 1];
      Places(rows[..|rows| - 1], k) + if Belongs(last, k) then [Location(last.span, last.arm)] else []
  }

  lemma {:induction false} LocationsAre(rows: seq<Observation>, k: GroupKey)
    ensures LocationsOf(rows, k) == Places(rows, k)
  {
    if rows != [] {
      LocationsAre(rows[..|rows| - 1], k);
    }
  }

  /** A group holds exactly the places of the rows that belong to it, ordered by span and arm,
      and every row belongs to a group. */
  lemma GroupMeaning(rows: seq<Observation>, i: nat)
    requires i < |GroupsOf(rows)|
    ensures var g := GroupsOf(rows)[i];
            && multiset(g.locations) == multiset(Places(rows, g.key))
            && (forall a, b :: 0 <= a < b < |g.locations| ==>
                  g.locations[a] == g.locations[b] || LocationBefore(g.locations[a], g.locations[b]))
  {
    var g := GroupsOf(rows)[i];
    CollectedMembers(rows);
    SortMembers(Collected(rows), GroupOrder);
    assert g in GroupsOf(rows);
    LocationsAre(rows, g.key);
    SortSorted(LocationsOf(rows, g.key), LocationOrder);
    forall a, b | 0 <= a < b < |g.locations| && g.locations[a] != g.locations[b]
      ensures LocationBefore(g.locations[a], g.locations[b])
    {
      LocationLeq(g.locations[a], g.locations[b]);
    }
  }

  lemma EveryRowGrouped(rows: seq<Observation>, o: Observation)
    requires o in rows
    ensures exists i :: 0 <= i < |GroupsOf(rows)| && Belongs(o, GroupsOf(rows)[i].key)
  {
    CollectedMembers(rows);
    SortMembers(Collected(rows), GroupOrder);
    var g := GroupFor(rows, GroupKeyOf(o));
    assert g in Collected(rows);
    assert g in GroupsOf(rows);
  }
}
