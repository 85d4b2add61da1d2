/** `group_rows` of src/query.rs: observations grouped by place, sorted and cut into pages. */
module Grouping {
  import opened Text
  import opened Keys
  import opened Measurements
  import opened Ordering
  import opened Counting

  // ---------- groups ----------

  /** Rows without a function are grouped by line; the cause keeps unmeasured rows apart. */
  datatype GroupKey = GroupKey(path: string, symbol: string, line: int, cause: Option<string>)

  datatype Location = Location(span: Span, arm: string)

  datatype Group = Group(key: GroupKey, locations: seq<Location>)

  function GroupKeyOf(o: Observation): GroupKey {
    GroupKey(o.path, o.symbol, if o.symbol == "" then o.span.startLine else 0, o.cause)
  }

  function LocationOf(o: Observation): Location { Location(o.span, o.arm) }

  /** The rows of one group, in input order. */
  function LocationsOf(rows: seq<Observation>, k: GroupKey): seq<Location> {
    if rows == [] then []
    else
      var rest, last := LocationsOf(rows[..|rows| - 1], k), rows[|rows| - 1];
      if GroupKeyOf(last) == k then rest + [LocationOf(last)] else rest
  }

  function GroupKeys(rows: seq<Observation>): seq<GroupKey> {
    if rows == [] then []
    else
      var rest, k := GroupKeys(rows[..|rows| - 1]), GroupKeyOf(rows[|rows| - 1]);
      if k in rest then rest else rest + [k]
  }

  // ---------- sort keys ----------

  function Codes(s: string): seq<int> {
    seq(|s|, i requires 0 <= i < |s| => s[i] as int)
  }

  function SpanCodes(s: Span): seq<int> { [s.startLine, s.startColumn, s.endLine, s.endColumn] }

  function CauseCodes(c: Option<string>): seq<int> { if c.None? then [0] else [1] + Codes(c.value) }

  /** Locations sort by span, then by arm. */
  function LocationOrder(l: Location): Key { [SpanCodes(l.span), Codes(l.arm)] }

  /** Larger groups first, then path, first span and symbol; ties keep the order of the
      grouping map, which is by line and cause once path and symbol agree. */
  function GroupOrder(g: Group): Key {
    [[-|g.locations|], Codes(g.key.path), if g.locations == [] then [] else SpanCodes(g.locations[0].span),
     Codes(g.key.symbol), [g.key.line], CauseCodes(g.key.cause)]
  }

  lemma CodesInjective(s: string, t: string)
    requires Codes(s) == Codes(t)
    ensures s == t
  {
    assert |s| == |Codes(s)| == |Codes(t)| == |t|;
    forall i | 0 <= i < |s| ensures s[i] == t[i] {
      assert Codes(s)[i] == Codes(t)[i];
    }
  }

  lemma LocationOrderInjective(a: Location, b: Location)
    requires LocationOrder(a) == LocationOrder(b)
    ensures a == b
  {
    assert LocationOrder(a)[0] == LocationOrder(b)[0] && LocationOrder(a)[1] == LocationOrder(b)[1];
    var x, y := SpanCodes(a.span), SpanCodes(b.span);
    assert x[0] == y[0] && x[1] == y[1] && x[2] == y[2] && x[3] == y[3];
    CodesInjective(a.arm, b.arm);
  }

  lemma GroupOrderInjective(a: Group, b: Group)
    requires GroupOrder(a) == GroupOrder(b)
    ensures a.key == b.key
  {
    var x, y := GroupOrder(a), GroupOrder(b);
    assert x[1] == y[1] && x[3] == y[3] && x[4] == y[4] && x[5] == y[5];
    CodesInjective(a.key.path, b.key.path);
    CodesInjective(a.key.symbol, b.key.symbol);
    assert x[4][0] == y[4][0];
    CauseInjective(a.key.cause, b.key.cause);
  }

  lemma CauseInjective(a: Option<string>, b: Option<string>)
    requires CauseCodes(a) == CauseCodes(b)
    ensures a == b
  {
    assert CauseCodes(a)[0] == CauseCodes(b)[0];
    if a.Some? {
      assert CauseCodes(a)[1..] == Codes(a.value) && CauseCodes(b)[1..] == Codes(b.value);
      CodesInjective(a.value, b.value);
    }
  }

  // ---------- the whole grouping ----------

  function GroupFor(rows: seq<Observation>, k: GroupKey): Group {
    Group(k, Sort(LocationsOf(rows, k), LocationOrder))
  }

  function Collected(rows: seq<Observation>): seq<Group> {
    var ks := GroupKeys(rows);
    seq(|ks|, i requires 0 <= i < |ks| => GroupFor(rows, ks[i]))
  }

  function GroupsOf(rows: seq<Observation>): seq<Group> {
    Sort(Collected(rows), GroupOrder)
  }

  // ---------- independence of the input order ----------

  lemma {:induction false} KeyMembers(rows: seq<Observation>)
    ensures NoRepeats(GroupKeys(rows))
    ensures forall k :: k in GroupKeys(rows) <==> exists o :: o in rows && GroupKeyOf(o) == k
  {
    if rows != [] {
      var rest, last := rows[..|rows| - 1], rows[|rows| - 1];
      KeyMembers(rest);
      assert forall o :: o in rows <==> o in rest || o == last;
    }
  }

  lemma {:induction false} LocationsConcat(a: seq<Observation>, b: seq<Observation>, k: GroupKey)
    ensures LocationsOf(a + b, k) == LocationsOf(a, k) + LocationsOf(b, k)
  {
    if b == [] {
      assert a + b == a;
    } else {
      var rest := b[..|b| - 1];
      assert (a + b)[..|a + b| - 1] == a + rest && (a + b)[|a + b| - 1] == b[|b| - 1];
      LocationsConcat(a, rest, k);
    }
  }

  lemma LocationsAround(left: seq<Observation>, o: Observation, right: seq<Observation>, k: GroupKey)
    ensures multiset(LocationsOf(left + [o] + right, k)) == multiset(LocationsOf(left + right, k)) + multiset(LocationsOf([o], k))
  {
    LocationsConcat(left, right, k);
    LocationsConcat(left + [o], right, k);
    LocationsConcat(left, [o], k);
  }

  lemma {:induction false} LocationsPermute(a: seq<Observation>, b: seq<Observation>, k: GroupKey)
    requires multiset(a) == multiset(b)
    ensures multiset(LocationsOf(a, k)) == multiset(LocationsOf(b, k))
    decreases |a|
  {
    if a == [] {
      assert |multiset(b)| == 0;
    } else {
      var rest, o := a[..|a| - 1], a[|a| - 1];
      var left, right := TakeOut(a, b);
      LocationsPermute(rest, left + right, k);
      LocationsAround(left, o, right, k);
      LocationsAround(rest, o, [], k);
      assert rest + [o] + [] == a && rest + [] == rest;
    }
  }

  lemma SameGroup(a: seq<Observation>, b: seq<Observation>, k: GroupKey)
    requires multiset(a) == multiset(b)
    ensures GroupFor(a, k) == GroupFor(b, k)
  {
    LocationsPermute(a, b, k);
    SortSorted(LocationsOf(a, k), LocationOrder);
    SortSorted(LocationsOf(b, k), LocationOrder);
    forall x: Location, y: Location | LocationOrder(x) == LocationOrder(y) ensures x == y {
      LocationOrderInjective(x, y);
    }
    SortedUnique(Sort(LocationsOf(a, k), LocationOrder), Sort(LocationsOf(b, k), LocationOrder), LocationOrder);
  }

  lemma {:induction false} OncePerElement<T>(s: seq<T>, x: T)
    requires NoRepeats(s)
    ensures multiset(s)[x] == if x in s then 1 else 0
  {
    if s != [] {
      var rest, last := s[..|s| - 1], s[|s| - 1];
      assert s == rest + [last];
      OncePerElement(rest, x);
      assert last !in rest;
    }
  }

  lemma SameElements<T>(a: seq<T>, b: seq<T>)
    requires NoRepeats(a) && NoRepeats(b) && forall x :: x in a <==> x in b
    ensures multiset(a) == multiset(b)
  {
    forall x ensures multiset(a)[x] == multiset(b)[x] {
      OncePerElement(a, x);
      OncePerElement(b, x);
    }
  }

  lemma CollectedMembers(rows: seq<Observation>)
    ensures NoRepeats(Collected(rows))
    ensures forall g :: g in Collected(rows) <==> g == GroupFor(rows, g.key) && exists o :: o in rows && GroupKeyOf(o) == g.key
  {
    KeyMembers(rows);
    var ks, gs := GroupKeys(rows), Collected(rows);
    forall i, j | 0 <= i < j < |gs| ensures gs[i] != gs[j] {
      assert ks[i] != ks[j];
    }
    forall g ensures g in gs <==> g == GroupFor(rows, g.key) && g.key in ks {
      if g == GroupFor(rows, g.key) && g.key in ks {
        var i :| 0 <= i < |ks| && ks[i] == g.key;
        assert gs[i] == g;
      }
    }
  }

  /** Any sorted arrangement of exactly the groups of the rows is the grouping. */
  lemma GroupingUnique(rows: seq<Observation>, gs: seq<Group>)
    requires Sorted(gs, GroupOrder) && NoRepeats(gs)
    requires forall g :: g in gs <==> g in Collected(rows)
    ensures gs == GroupsOf(rows)
  {
    CollectedMembers(rows);
    SameElements(gs, Collected(rows));
    SortSorted(Collected(rows), GroupOrder);
    forall x, y | x in gs && y in gs && GroupOrder(x) == GroupOrder(y) ensures x == y {
      GroupOrderInjective(x, y);
    }
    SortedUnique(gs, GroupsOf(rows), GroupOrder);
  }

  /** The grouping, and so every page of it, depends only on the multiset of rows. */
  lemma GroupingPermutes(a: seq<Observation>, b: seq<Observation>)
    requires multiset(a) == multiset(b)
    ensures GroupsOf(a) == GroupsOf(b)
  {
    SameMembers(a, b);
    CollectedMembers(a);
    CollectedMembers(b);
    forall g ensures g in Collected(a) <==> g in Collected(b) {
      SameGroup(a, b, g.key);
    }
    SameElements(Collected(a), Collected(b));
    SortSorted(Collected(a), GroupOrder);
    SortMembers(Collected(a), GroupOrder);
    SortRepeats(Collected(a), GroupOrder);
    GroupingUnique(b, GroupsOf(a));
  }

  lemma SortMembers<T>(xs: seq<T>, key: T -> Key)
    ensures forall x :: x in Sort(xs, key) <==> x in xs
  {
    SameMembers(xs, Sort(xs, key));
  }

  lemma Twice<T>(s: seq<T>, i: nat, j: nat)
    requires i < j < |s| && s[i] == s[j]
    ensures multiset(s)[s[i]] >= 2
  {
    assert s == s[..j] + s[j..];
    assert s[i] in s[..j] && s[i] in s[j..];
  }

  lemma SortRepeats<T(!new)>(xs: seq<T>, key: T -> Key)
    requires NoRepeats(xs)
    ensures NoRepeats(Sort(xs, key))
  {
    Distinct(xs, Sort(xs, key));
  }

  lemma Distinct<T(!new)>(xs: seq<T>, r: seq<T>)
    requires NoRepeats(xs) && multiset(r) == multiset(xs)
    ensures NoRepeats(r)
  {
    forall x ensures multiset(r)[x] <= 1 {
      OncePerElement(xs, x);
    }
    if i, j :| 0 <= i < j < |r| && r[i] == r[j] {
      Twice(r, i, j);
    }
  }

  // ---------- every row is in one group ----------

  function Weight(gs: seq<Group>): nat {
    if gs == [] then 0 else Weight(gs[..|gs| - 1]) + |gs[|gs| - 1].locations|
  }

  function RowsIn(ks: seq<GroupKey>, rows: seq<Observation>): nat {
    if ks == [] then 0 else RowsIn(ks[..|ks| - 1], rows) + |LocationsOf(rows, ks[|ks| - 1])|
  }

  lemma {:induction false} OneMoreRow(ks: seq<GroupKey>, rows: seq<Observation>)
    requires NoRepeats(ks) && rows != []
    ensures RowsIn(ks, rows) == RowsIn(ks, rows[..|rows| - 1]) + if GroupKeyOf(rows[|rows| - 1]) in ks then 1 else 0
  {
    if ks != [] {
      var rest, k := ks[..|ks| - 1], ks[|ks| - 1];
      OneMoreRow(rest, rows);
      assert ks == rest + [k] && k !in rest;
    }
  }

  lemma {:induction false} NoRowsIn(ks: seq<GroupKey>)
    ensures RowsIn(ks, []) == 0
  {
    if ks != [] {
      NoRowsIn(ks[..|ks| - 1]);
    }
  }

  lemma {:induction false} EveryRowOnce(ks: seq<GroupKey>, rows: seq<Observation>)
    requires NoRepeats(ks) && forall o :: o in rows ==> GroupKeyOf(o) in ks
    ensures RowsIn(ks, rows) == |rows|
  {
    if rows == [] {
      NoRowsIn(ks);
    } else {
      EveryRowOnce(ks, rows[..|rows| - 1]);
      OneMoreRow(ks, rows);
    }
  }

  lemma {:induction false} WeightConcat(a: seq<Group>, b: seq<Group>)
    ensures Weight(a + b) == Weight(a) + Weight(b)
  {
    if b == [] {
      assert a + b == a;
    } else {
      assert (a + b)[..|a + b| - 1] == a + b[..|b| - 1] && (a + b)[|a + b| - 1] == b[|b| - 1];
      WeightConcat(a, b[..|b| - 1]);
    }
  }

  lemma {:induction false} WeightPermutes(a: seq<Group>, b: seq<Group>)
    requires multiset(a) == multiset(b)
    ensures Weight(a) == Weight(b)
    decreases |a|
  {
    if a == [] {
      assert |multiset(b)| == 0;
    } else {
      var left, right := TakeOut(a, b);
      WeightPermutes(a[..|a| - 1], left + right);
      WeightConcat(left + [a[|a| - 1]], right);
      WeightConcat(left, right);
    }
  }

  lemma {:induction false} WeightOfKeys(rows: seq<Observation>, ks: seq<GroupKey>, gs: seq<Group>)
    requires |gs| == |ks| && forall i :: 0 <= i < |ks| ==> gs[i] == GroupFor(rows, ks[i])
    ensures Weight(gs) == RowsIn(ks, rows)
  {
    if ks != [] {
      var last := |ks| - 1;
      WeightOfKeys(rows, ks[..last], gs[..last]);
      var ls := LocationsOf(rows, ks[last]);
      assert |multiset(Sort(ls, LocationOrder))| == |multiset(ls)|;
    }
  }

  /** The group counts add up to the number of rows; no group is empty and no two groups
      have one key. */
  lemma GroupsPartition(rows: seq<Observation>)
    ensures Weight(GroupsOf(rows)) == |rows|
    ensures forall i :: 0 <= i < |GroupsOf(rows)| ==> GroupsOf(rows)[i].locations != []
    ensures forall i, j :: 0 <= i < j < |GroupsOf(rows)| ==> GroupsOf(rows)[i].key != GroupsOf(rows)[j].key
  {
    var gs := GroupsOf(rows);
    KeyMembers(rows);
    WeightPermutes(Collected(rows), gs);
    WeightOfKeys(rows, GroupKeys(rows), Collected(rows));
    forall o | o in rows ensures GroupKeyOf(o) in GroupKeys(rows) { }
    EveryRowOnce(GroupKeys(rows), rows);
    CollectedMembers(rows);
    SortMembers(Collected(rows), GroupOrder);
    SortRepeats(Collected(rows), GroupOrder);
    forall i | 0 <= i < |gs| ensures gs[i].locations != [] && gs[i] == GroupFor(rows, gs[i].key) {
      assert gs[i] in gs;
      NeverEmpty(rows, gs[i]);
    }
  }

  lemma NeverEmpty(rows: seq<Observation>, g: Group)
    requires g == GroupFor(rows, g.key) && exists o :: o in rows && GroupKeyOf(o) == g.key
    ensures g.locations != []
  {
    var o :| o in rows && GroupKeyOf(o) == g.key;
    OwnLocation(rows, o);
  }

  lemma {:induction false} OwnLocation(rows: seq<Observation>, o: Observation)
    requires o in rows
    ensures LocationOf(o) in LocationsOf(rows, GroupKeyOf(o))
    ensures LocationOf(o) in GroupFor(rows, GroupKeyOf(o)).locations
  {
    var rest, last := rows[..|rows| - 1], rows[|rows| - 1];
    if o != last {
      assert o in rest;
      OwnLocation(rest, o);
    }
    SortMembers(LocationsOf(rows, GroupKeyOf(o)), LocationOrder);
  }

  // ---------- the answer ----------

  datatype GroupView = GroupView(path: string, name: Option<string>, count: nat, cause: Option<string>,
                                 locations: seq<Location>, omitted: nat)

  /** Demangling is a parameter; long names are cut to 159 characters and an ellipsis. */
  function NameOf(symbol: string, demangle: string -> string): (r: Option<string>)
    ensures r.None? <==> demangle(symbol) == ""
    ensures r.Some? && |demangle(symbol)| <= 160 ==> r.value == demangle(symbol)
    ensures r.Some? && |demangle(symbol)| > 160 ==> |r.value| == 160 && r.value[..159] <= demangle(symbol)
  {
    var name := demangle(symbol);
    if name == "" then None else if |name| > 160 then Some(name[..159] + ['\U{2026}']) else Some(name)
  }

  function ViewOf(g: Group, demangle: string -> string): (v: GroupView)
    ensures v.path == g.key.path && v.cause == g.key.cause
    ensures |v.locations| <= 3 && v.locations <= g.locations
    ensures |v.locations| + v.omitted == v.count == |g.locations|
    ensures v.omitted > 0 ==> |v.locations| == 3
  {
    var n := |g.locations|;
    GroupView(g.key.path, NameOf(g.key.symbol, demangle), n, g.key.cause,
              if n <= 3 then g.locations else g.locations[..3], if n <= 3 then 0 else n - 3)
  }

  function Views(gs: seq<Group>, demangle: string -> string): seq<GroupView> {
    seq(|gs|, i requires 0 <= i < |gs| => ViewOf(gs[i], demangle))
  }

  /** At most `limit` elements from `offset` on. */
  function Slice<T>(s: seq<T>, offset: nat, limit: nat): seq<T> {
    if offset >= |s| then [] else if |s| - offset <= limit then s[offset..] else s[offset..offset + limit]
  }

  // ---------- the loops ----------

  ghost predicate Gathered(rows: seq<Observation>, grouped: map<GroupKey, seq<Location>>) {
    && (forall k :: k in grouped <==> exists o :: o in rows && GroupKeyOf(o) == k)
    && (forall k :: k in grouped ==> grouped[k] == LocationsOf(rows, k))
  }

  lemma {:induction false} NoLocations(rows: seq<Observation>, k: GroupKey)
    requires forall o :: o in rows ==> GroupKeyOf(o) != k
    ensures LocationsOf(rows, k) == []
  {
    if rows != [] {
      NoLocations(rows[..|rows| - 1], k);
    }
  }

  lemma GatherOne(rows: seq<Observation>, o: Observation, grouped: map<GroupKey, seq<Location>>)
    requires Gathered(rows, grouped)
    ensures Gathered(rows + [o], grouped[GroupKeyOf(o) :=
              (if GroupKeyOf(o) in grouped then grouped[GroupKeyOf(o)] else []) + [LocationOf(o)]])
  {
    var k := GroupKeyOf(o);
    assert (rows + [o])[..|rows + [o]| - 1] == rows;
    assert forall x :: x in rows + [o] <==> x in rows || x == o;
    if k !in grouped {
      NoLocations(rows, k);
    }
  }

  method Collect(rows: seq<Observation>) returns (grouped: map<GroupKey, seq<Location>>)
    ensures Gathered(rows, grouped)
  {
    grouped := map[];
    for i := 0 to |rows|
      invariant Gathered(rows[..i], grouped)
    {
      var o := rows[i];
      var k := GroupKeyOf(o);
      GatherOne(rows[..i], o, grouped);
      assert rows[..i + 1] == rows[..i] + [o];
      grouped := grouped[k := (if k in grouped then grouped[k] else []) + [LocationOf(o)]];
    }
    assert rows[..|rows|] == rows;
  }

  /** Some of the keys are placed, in sorted order. */
  ghost predicate Placed(rows: seq<Observation>, keys: set<GroupKey>, todo: set<GroupKey>, gs: seq<Group>) {
    && Sorted(gs, GroupOrder) && NoRepeats(gs)
    && forall g :: g in gs <==> g.key in keys && g.key !in todo && g == GroupFor(rows, g.key)
  }

  lemma PlaceOne(rows: seq<Observation>, keys: set<GroupKey>, todo: set<GroupKey>, gs: seq<Group>, k: GroupKey)
    requires Placed(rows, keys, todo, gs) && k in todo && k in keys
    ensures Placed(rows, keys, todo - {k}, Insert(gs, GroupFor(rows, k), GroupOrder))
  {
    var g := GroupFor(rows, k);
    InsertSorted(gs, g, GroupOrder);
    assert g.key == k && g !in gs;
    assert multiset(gs + [g]) == multiset(Insert(gs, g, GroupOrder));
    SameMembers(gs + [g], Insert(gs, g, GroupOrder));
    Distinct(gs + [g], Insert(gs, g, GroupOrder));
  }

  /** The page of the sorted grouping, whatever order the grouping map is read in. */
  method GroupRows(rows: seq<Observation>, limit: nat, offset: nat, demangle: string -> string)
    returns (page: seq<GroupView>, count: nat)
    ensures count == |GroupsOf(rows)|
    ensures page == Views(Slice(GroupsOf(rows), offset, limit), demangle)
  {
    var grouped := Collect(rows);
    var todo, gs := grouped.Keys, [];
    while todo != {}
      invariant todo <= grouped.Keys
      invariant Placed(rows, grouped.Keys, todo, gs)
    {
      var k :| k in todo;
      PlaceOne(rows, grouped.Keys, todo, gs, k);
      gs := Insert(gs, Group(k, Sort(grouped[k], LocationOrder)), GroupOrder);
      todo := todo - {k};
    }
    CollectedMembers(rows);
    GroupingUnique(rows, gs);
    return Views(Slice(gs, offset, limit), demangle), |gs|;
  }
}
