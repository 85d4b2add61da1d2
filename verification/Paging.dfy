/** `find` and `bounded` of src/query.rs: answers cut to 12 KiB, and the walk over their pages. */
module Paging {
  import opened Text
  import opened Measurements
  import opened Grouping

  // ---------- the budget ----------

  /** The parts of an answer that the budget loop reads or changes; an absent array is empty. */
  datatype Envelope<T> = Envelope(groups: seq<T>, gained: seq<T>, remaining: seq<T>,
                                  groupCount: nat, next: Option<nat>)

  datatype Answer<T> = Refused | Answer(envelope: Envelope<T>)

  datatype Part = Groups | Gained | Remaining

  const BUDGET: nat := 12288

  /** The non-empty array with the longest text; of equals the last one. */
  function Largest<T>(e: Envelope<T>, weight: seq<T> -> nat): Option<Part> {
    var a := if e.groups == [] then None else Some(Groups);
    var b := if e.gained == [] || (a.Some? && weight(e.gained) < weight(e.groups)) then a else Some(Gained);
    if e.remaining == [] || (b == Some(Groups) && weight(e.remaining) < weight(e.groups))
       || (b == Some(Gained) && weight(e.remaining) < weight(e.gained)) then b
    else Some(Remaining)
  }

  function Front<T>(s: seq<T>): seq<T> { if s == [] then [] else s[..|s| - 1] }

  /** The continuation offset after one group was dropped. */
  function Back(next: Option<nat>, groupCount: nat): nat {
    var n := if next.Some? then next.value else groupCount;
    if n == 0 then 0 else n - 1
  }

  function Drop<T>(e: Envelope<T>, part: Part): Envelope<T> {
    match part
    case Groups => e.(groups := Front(e.groups), next := Some(Back(e.next, e.groupCount)))
    case Gained => e.(gained := Front(e.gained))
    case Remaining => e.(remaining := Front(e.remaining))
  }

  function Items<T>(e: Envelope<T>): nat { |e.groups| + |e.gained| + |e.remaining| }

  function Trim<T>(e: Envelope<T>, size: Envelope<T> -> nat, weight: seq<T> -> nat): Answer<T>
    decreases Items(e)
  {
    if size(e) <= BUDGET then Answer(e)
    else
      var part := Largest(e, weight);
      if part.None? || (part.value == Groups && |e.groups| == 1) then Refused
      else Trim(Drop(e, part.value), size, weight)
  }

  method Bounded<T>(envelope: Envelope<T>, size: Envelope<T> -> nat, weight: seq<T> -> nat) returns (r: Answer<T>)
    ensures r == Trim(envelope, size, weight)
  {
    var e := envelope;
    while size(e) > BUDGET
      invariant Trim(e, size, weight) == Trim(envelope, size, weight)
      decreases Items(e)
    {
      var part := Largest(e, weight);
      if part.None? {
        return Refused;
      }
      if part.value == Groups && Front(e.groups) == [] {
        return Refused;
      }
      e := Drop(e, part.value);
    }
    return Answer(e);
  }

  // ---------- which array is cut ----------

  function PartOf<T>(e: Envelope<T>, p: Part): seq<T> {
    match p case Groups => e.groups case Gained => e.gained case Remaining => e.remaining
  }

  predicate Later(q: Part, p: Part) { (p.Groups? && !q.Groups?) || (p.Gained? && q.Remaining?) }

  /** A non-empty array, none heavier, and every one listed later lighter. */
  predicate Heaviest<T>(e: Envelope<T>, p: Part, weight: seq<T> -> nat) {
    && PartOf(e, p) != []
    && forall q: Part :: PartOf(e, q) != [] ==>
         weight(PartOf(e, q)) <= weight(PartOf(e, p)) && (Later(q, p) ==> weight(PartOf(e, q)) < weight(PartOf(e, p)))
  }

  lemma LargestMeaning<T>(e: Envelope<T>, weight: seq<T> -> nat)
    ensures Largest(e, weight).None? <==> e.groups == [] && e.gained == [] && e.remaining == []
    ensures Largest(e, weight).Some? ==> Heaviest(e, Largest(e, weight).value, weight)
  {
  }

  /** The last element of one array is dropped; the continuation moves back with the groups. */
  ghost predicate DropsLast<T>(e: Envelope<T>, f: Envelope<T>, p: Part) {
    && PartOf(e, p) != [] && PartOf(f, p) == PartOf(e, p)[..|PartOf(e, p)| - 1]
    && (forall q: Part :: q != p ==> PartOf(f, q) == PartOf(e, q)) && f.groupCount == e.groupCount
    && (if p.Groups? then f.next.Some? && f.next.value == (if e.next.Some? then e.next.value else e.groupCount) - 1 else f.next == e.next)
  }

  ghost predicate Pops<T>(e: Envelope<T>, f: Envelope<T>, weight: seq<T> -> nat) {
    exists p: Part :: Heaviest(e, p, weight) && DropsLast(e, f, p)
  }

  /** A chain of answers, each the one before without the last element of its heaviest array,
      all but the last too long. */
  ghost predicate PopChain<T>(chain: seq<Envelope<T>>, size: Envelope<T> -> nat, weight: seq<T> -> nat) {
    forall i :: 0 <= i < |chain| - 1 ==> size(chain[i]) > 12288 && Pops(chain[i], chain[i + 1], weight)
  }

  /** Nothing more can be dropped: everything is empty, or it would be the only group. */
  predicate Stuck<T>(e: Envelope<T>, weight: seq<T> -> nat) {
    (e.groups == [] && e.gained == [] && e.remaining == []) || (Heaviest(e, Groups, weight) && |e.groups| == 1)
  }

  /** The answer is the first of the chain that fits, or the chain gets stuck. */
  lemma {:induction false} TrimChain<T>(e: Envelope<T>, size: Envelope<T> -> nat, weight: seq<T> -> nat)
    returns (chain: seq<Envelope<T>>)
    requires |e.groups| <= (if e.next.Some? then e.next.value else e.groupCount)
    ensures chain != [] && chain[0] == e && PopChain(chain, size, weight)
    ensures var last, a := chain[|chain| - 1], Trim(e, size, weight);
            if a.Answer? then a.envelope == last && size(last) <= 12288 else size(last) > 12288 && Stuck(last, weight)
    decreases Items(e)
  {
    chain := [e];
    var part := Largest(e, weight);
    LargestMeaning(e, weight);
    if size(e) > BUDGET && part.Some? && !(part.value == Groups && |e.groups| == 1) {
      var f := Drop(e, part.value);
      var rest := TrimChain(f, size, weight);
      assert DropsLast(e, f, part.value) && Pops(e, f, weight);
      chain := [e] + rest;
      assert forall i :: 0 < i < |chain| ==> chain[i] == rest[i - 1];
    }
  }

  /** Whatever the texts weigh, an answer fits, keeps a prefix of every array, keeps the count,
      never loses all its groups, and moves the continuation back by the groups it dropped. */
  lemma {:induction false} TrimKeeps<T>(e: Envelope<T>, size: Envelope<T> -> nat, weight: seq<T> -> nat)
    requires |e.groups| <= (if e.next.Some? then e.next.value else e.groupCount)
    ensures Trim(e, size, weight).Answer? ==>
              var r := Trim(e, size, weight).envelope;
              && size(r) <= 12288 && r.groupCount == e.groupCount
              && r.groups <= e.groups && r.gained <= e.gained && r.remaining <= e.remaining
              && (e.groups != [] ==> r.groups != [])
              && (r.next == if |r.groups| == |e.groups| then e.next
                            else Some((if e.next.Some? then e.next.value else e.groupCount) - (|e.groups| - |r.groups|)))
    decreases Items(e)
  {
    var part := Largest(e, weight);
    if size(e) > BUDGET && part.Some? && !(part.value == Groups && |e.groups| == 1) {
      TrimKeeps(Drop(e, part.value), size, weight);
    }
  }

  /** A longer answer is never shorter as text. */
  ghost predicate Grows<T(!new)>(size: Envelope<T> -> nat) {
    forall a: Envelope<T>, b: Envelope<T> {:trigger size(a), size(b)} ::
      (a.groups == b.groups && a.groupCount == b.groupCount && a.next == b.next
       && a.gained <= b.gained && a.remaining <= b.remaining) ==> size(a) <= size(b)
  }

  /** A comparison is refused only if its metadata alone is over the budget; when text grows
      with the arrays, exactly then. */
  lemma {:induction false} ComparisonRefused<T(!new)>(e: Envelope<T>, size: Envelope<T> -> nat, weight: seq<T> -> nat)
    requires e.groups == []
    ensures Trim(e, size, weight).Refused? ==> size(e.(gained := [], remaining := [])) > BUDGET
    ensures Grows(size) ==> (Trim(e, size, weight).Refused? <==> size(e.(gained := [], remaining := [])) > BUDGET)
    decreases Items(e)
  {
    var bare := e.(gained := [], remaining := []);
    var part := Largest(e, weight);
    if part.None? {
      assert e == bare;
    } else if size(e) > BUDGET {
      assert Drop(e, part.value).(gained := [], remaining := []) == bare;
      ComparisonRefused(Drop(e, part.value), size, weight);
    }
  }

  // ---------- one page ----------

  /** The answer to `coverage_gaps` before the budget: groups from `offset` on. */
  function PageAt<T>(all: seq<T>, offset: nat, items: seq<T>): Envelope<T> {
    var next := offset + |items|;
    Envelope(items, [], [], |all|, if next < |all| then Some(next) else None)
  }

  function Find<T>(all: seq<T>, offset: nat, limit: nat, size: Envelope<T> -> nat, weight: seq<T> -> nat): Answer<T> {
    if 1 <= limit <= 20 then Trim(PageAt(all, offset, Slice(all, offset, limit)), size, weight) else Refused
  }

  /** The part of `all` a page of `k` groups shows. */
  function Window<T>(all: seq<T>, offset: nat, k: nat): Envelope<T> {
    PageAt(all, offset, Slice(all, offset, k))
  }

  lemma SliceLength<T>(s: seq<T>, offset: nat, k: nat)
    requires offset + k <= |s|
    ensures |Slice(s, offset, k)| == k && (forall i :: 0 <= i < k ==> Slice(s, offset, k)[i] == s[offset + i])
  {
  }

  lemma SliceThen<T>(s: seq<T>, offset: nat, k: nat)
    requires offset + k <= |s|
    ensures s[offset..] == Slice(s, offset, k) + s[offset + k..]
  {
    SliceLength(s, offset, k);
  }

  lemma DropWindow<T>(all: seq<T>, offset: nat, k: nat)
    requires 1 <= k && offset + k <= |all|
    ensures Drop(Window(all, offset, k), Groups) == Window(all, offset, k - 1)
  {
    SliceLength(all, offset, k);
    SliceLength(all, offset, k - 1);
    assert Front(Slice(all, offset, k)) == Slice(all, offset, k - 1);
  }

  /** A page of at most k groups is the longest non-empty window that fits, and there is an
      answer exactly when some non-empty window fits. */
  lemma {:induction false} LongestFit<T>(all: seq<T>, offset: nat, k: nat, size: Envelope<T> -> nat, weight: seq<T> -> nat)
    returns (n: nat)
    requires 1 <= k && offset + k <= |all|
    ensures n <= k && (Trim(Window(all, offset, k), size, weight) ==
                       if n == 0 then Refused else Answer(Window(all, offset, n)))
    ensures n > 0 ==> size(Window(all, offset, n)) <= BUDGET
    ensures forall j :: n < j <= k ==> size(Window(all, offset, j)) > BUDGET
  {
    var e := Window(all, offset, k);
    SliceLength(all, offset, k);
    assert Largest(e, weight) == Some(Groups);
    if size(e) <= BUDGET {
      n := k;
    } else if k == 1 {
      n := 0;
    } else {
      DropWindow(all, offset, k);
      n := LongestFit(all, offset, k - 1, size, weight);
    }
  }

  /** Every page continues right behind the groups it shows, and moves on. */
  lemma PageLaw<T>(all: seq<T>, offset: nat, limit: nat, size: Envelope<T> -> nat, weight: seq<T> -> nat)
    ensures var r := Find(all, offset, limit, size, weight);
            r.Answer? ==>
              var e := r.envelope;
              && size(e) <= BUDGET && e.groupCount == |all| && |e.groups| <= limit
              && e.groups == Slice(all, offset, |e.groups|)
              && (e.next.Some? ==> e.next.value == offset + |e.groups| < |all| && e.groups != [])
              && (e.next.None? ==> offset + |e.groups| >= |all|)
  {
    if 1 <= limit <= 20 {
      var items := Slice(all, offset, limit);
      if items == [] {
        assert offset >= |all|;
        assert PageAt(all, offset, items).next.None?;
      } else {
        var k := |items|;
        SliceLength(all, offset, k);
        assert items == Slice(all, offset, k);
        var n := LongestFit(all, offset, k, size, weight);
        SliceLength(all, offset, n);
      }
    }
  }

  // ---------- the walk ----------

  /** Following `next_offset`, each request with a limit of its own. */
  function Walk<T>(all: seq<T>, offset: nat, limits: nat -> nat, size: Envelope<T> -> nat, weight: seq<T> -> nat)
    : Option<seq<T>>
    decreases |all| - offset
  {
    PageLaw(all, offset, limits(offset), size, weight);
    var r := Find(all, offset, limits(offset), size, weight);
    if r.Refused? then None
    else if r.envelope.next.None? then Some(r.envelope.groups)
    else
      var rest := Walk(all, r.envelope.next.value, limits, size, weight);
      if rest.None? then None else Some(r.envelope.groups + rest.value)
  }

  lemma {:induction false} WalkFrom<T>(all: seq<T>, offset: nat, limits: nat -> nat, size: Envelope<T> -> nat, weight: seq<T> -> nat)
    requires offset <= |all|
    ensures var w := Walk(all, offset, limits, size, weight); w.None? || w.value == all[offset..]
    decreases |all| - offset
  {
    PageLaw(all, offset, limits(offset), size, weight);
    var r := Find(all, offset, limits(offset), size, weight);
    if r.Answer? {
      var shown := r.envelope.groups;
      if r.envelope.next.Some? {
        WalkFrom(all, r.envelope.next.value, limits, size, weight);
        SliceThen(all, offset, |shown|);
      }
    }
  }

  /** Pages are never shorter as text than the single groups they hold. */
  ghost predicate HoldsParts<T>(all: seq<T>, size: Envelope<T> -> nat) {
    forall offset: nat, k: nat, i: nat :: offset <= i < offset + k <= |all| ==>
      size(Window(all, i, 1)) <= size(Window(all, offset, k))
  }

  ghost predicate SinglesFit<T>(all: seq<T>, from: nat, size: Envelope<T> -> nat) {
    forall i: nat :: from <= i < |all| ==> size(Window(all, i, 1)) <= BUDGET
  }

  predicate LimitsAllowed(limits: nat -> nat, count: nat) {
    forall i: nat :: i <= count ==> 1 <= limits(i) <= 20
  }

  lemma WalkStep<T>(all: seq<T>, offset: nat, limit: nat, size: Envelope<T> -> nat, weight: seq<T> -> nat)
    returns (n: nat)
    requires offset < |all| && 1 <= limit <= 20
    ensures offset + n <= |all|
    ensures Find(all, offset, limit, size, weight) == if n == 0 then Refused else Answer(Window(all, offset, n))
    ensures |Window(all, offset, n).groups| == n
    ensures n == 0 ==> size(Window(all, offset, 1)) > BUDGET
    ensures n > 0 ==> size(Window(all, offset, n)) <= BUDGET
  {
    var items := Slice(all, offset, limit);
    var k := |items|;
    SliceLength(all, offset, k);
    assert items == Slice(all, offset, k) && 1 <= k;
    n := LongestFit(all, offset, k, size, weight);
    SliceLength(all, offset, n);
  }

  /** The walk gets through if every group alone fits, and when pages hold their parts, only then. */
  lemma {:induction false} WalkThrough<T>(all: seq<T>, offset: nat, limits: nat -> nat, size: Envelope<T> -> nat, weight: seq<T> -> nat)
    requires offset < |all| && LimitsAllowed(limits, |all|)
    ensures SinglesFit(all, offset, size) ==> Walk(all, offset, limits, size, weight).Some?
    ensures HoldsParts(all, size) && Walk(all, offset, limits, size, weight).Some? ==> SinglesFit(all, offset, size)
    decreases |all| - offset
  {
    var n := WalkStep(all, offset, limits(offset), size, weight);
    if n > 0 && offset + n < |all| {
      WalkThrough(all, offset + n, limits, size, weight);
    }
  }

  /** From offset 0 the walk returns every group once, in order, or some page is refused; it
      is refused nowhere exactly when each group alone (or the empty answer) fits. */
  lemma WalkIsComplete<T>(all: seq<T>, limits: nat -> nat, size: Envelope<T> -> nat, weight: seq<T> -> nat)
    ensures var w := Walk(all, 0, limits, size, weight); w.None? || w == Some(all)
    ensures LimitsAllowed(limits, |all|) && HoldsParts(all, size) ==>
              (Walk(all, 0, limits, size, weight) == Some(all)
               <==> if all == [] then size(Window(all, 0, 1)) <= BUDGET else SinglesFit(all, 0, size))
  {
    WalkFrom(all, 0, limits, size, weight);
    assert all[0..] == all;
    if LimitsAllowed(limits, |all|) {
      if all == [] {
        assert Slice(all, 0, limits(0)) == Slice(all, 0, 1);
        assert Largest(Window(all, 0, 1), weight).None?;
      } else {
        WalkThrough(all, 0, limits, size, weight);
      }
    }
  }

  // ---------- the call ----------

  function Chosen(rows: seq<Observation>, selected: Observation -> bool): seq<Observation> {
    if rows == [] then []
    else
      var rest, last := Chosen(rows[..|rows| - 1], selected), rows[|rows| - 1];
      if selected(last) then rest + [last] else rest
  }

  /** Choosing keeps exactly the selected rows, as often as they occur. */
  lemma {:induction false} ChosenRows(rows: seq<Observation>, selected: Observation -> bool, o: Observation)
    ensures multiset(Chosen(rows, selected))[o] == if selected(o) then multiset(rows)[o] else 0
  {
    if rows != [] {
      ChosenRows(rows[..|rows| - 1], selected, o);
      assert rows == rows[..|rows| - 1] + [rows[|rows| - 1]];
    }
  }

  method Choose(rows: seq<Observation>, selected: Observation -> bool) returns (chosen: seq<Observation>)
    ensures chosen == Chosen(rows, selected)
  {
    chosen := [];
    for i := 0 to |rows|
      invariant chosen == Chosen(rows[..i], selected)
    {
      assert rows[..i + 1][..i] == rows[..i];
      if selected(rows[i]) {
        chosen := chosen + [rows[i]];
      }
    }
    assert rows[..|rows|] == rows;
  }

  lemma SliceViews(gs: seq<Group>, offset: nat, limit: nat, demangle: string -> string)
    ensures Views(Slice(gs, offset, limit), demangle) == Slice(Views(gs, demangle), offset, limit)
  {
  }

  method Present(rows: seq<Observation>, limit: nat, offset: nat, demangle: string -> string)
    returns (e: Envelope<GroupView>)
    ensures e == Window(Views(GroupsOf(rows), demangle), offset, limit)
  {
    var page, count := GroupRows(rows, limit, offset, demangle);
    SliceViews(GroupsOf(rows), offset, limit, demangle);
    var next := offset + |page|;
    e := Envelope(page, [], [], count, if next < count then Some(next) else None);
  }

  datatype Request = Request(query: Option<string>, line: Option<int>, limit: nat, offset: nat)

  function Utf8Length(s: string): nat {
    if s == "" then 0
    else
      var c := s[|s| - 1] as int;
      Utf8Length(s[..|s| - 1]) + if c < 0x80 then 1 else if c < 0x800 then 2 else if c < 0x10000 then 3 else 4
  }

  predicate ValidRequest(q: Request) {
    && 1 <= q.limit <= 20 && (q.line.Some? ==> q.line.value >= 1)
    && (q.query.Some? ==> 1 <= Utf8Length(q.query.value) <= 256)
  }

  /** A gap: an observation of the metric without a positive count that the request asks for. */
  function GapFilter(metric: Metric, q: Request, lower: string -> string): Observation -> bool {
    (o: Observation) => o.kind == metric && o.hits <= 0 && Matches(o, q.query, q.line, lower)
  }

  datatype GapStatus = Incomplete | Measured | DetailUnavailable

  /** `coverage_gaps`: validate, filter, group, page and cut. Any unmeasured row makes the answer
      incomplete; a metric without rows has no detail. */
  method CoverageGaps(rows: seq<Observation>, metric: Metric, q: Request, lower: string -> string, demangle: string -> string,
                      size: Envelope<GroupView> -> nat, weight: seq<GroupView> -> nat)
    returns (r: Answer<GroupView>, status: GapStatus)
    ensures !ValidRequest(q) ==> r == Refused
    ensures ValidRequest(q) ==>
              r == Find(Views(GroupsOf(Chosen(rows, GapFilter(metric, q, lower))), demangle), q.offset, q.limit, size, weight)
    ensures ValidRequest(q) ==>
              && (status.Incomplete? <==> exists o :: o in rows && o.hits < 0)
              && (status.Measured? <==> (forall o :: o in rows ==> o.hits >= 0) && exists o :: o in rows && o.kind == metric)
  {
    r, status := Refused, DetailUnavailable;
    if !ValidRequest(q) {
      return;
    }
    var chosen := Choose(rows, GapFilter(metric, q, lower));
    var e := Present(chosen, q.limit, q.offset, demangle);
    r := Bounded(e, size, weight);
    if exists o :: o in rows && o.hits < 0 {
      status := Incomplete;
    } else if exists o :: o in rows && o.kind == metric {
      status := Measured;
    }
  }

  /** Only limits from 1 to 20 are answered. */
  lemma LimitRefused<T>(all: seq<T>, offset: nat, limit: nat, size: Envelope<T> -> nat, weight: seq<T> -> nat)
    requires limit == 0 || limit > 20
    ensures Find(all, offset, limit, size, weight) == Refused
  {
  }

  /** What `coverage_gaps` shows: every row of the metric that was not hit, whose path or function
      holds the query and whose span holds the line, as often as it occurs, and no other. */
  lemma GapRows(rows: seq<Observation>, metric: Metric, q: Request, lower: string -> string, o: Observation)
    ensures multiset(Chosen(rows, GapFilter(metric, q, lower)))[o] ==
              if o.kind == metric && !(o.hits > 0)
                 && (q.query.Some? ==> Occurs(lower(q.query.value), lower(o.path + " " + o.symbol)))
                 && (q.line.Some? ==> !(q.line.value < o.span.startLine) && !(o.span.endLine < q.line.value))
              then multiset(rows)[o] else 0
  {
    ChosenRows(rows, GapFilter(metric, q, lower), o);
    if q.query.Some? {
      ContainsOccurs(lower(o.path + " " + o.symbol), lower(q.query.value));
    }
  }

  lemma {:induction false} BytesAndCharacters(s: string)
    ensures Utf8Length(s) >= |s| && ((forall i :: 0 <= i < |s| ==> s[i] as int < 0x80) ==> Utf8Length(s) == |s|)
  {
    if s != "" {
      BytesAndCharacters(s[..|s| - 1]);
    }
  }

  /** Requests that are refused, and that are not: limits, empty and long queries, lines below 1. */
  lemma RequestMeaning(q: Request)
    ensures q.limit < 1 || q.limit > 20 || (q.line.Some? && q.line.value < 1) || q.query == Some("") ==> !ValidRequest(q)
    ensures q.query.Some? && |q.query.value| > 256 ==> !ValidRequest(q)
    ensures 1 <= q.limit <= 20 && q.query.None? && q.line.None? ==> ValidRequest(q)
    ensures 1 <= q.limit <= 20 && q.query.Some? && 1 <= |q.query.value| <= 256
            && (forall i :: 0 <= i < |q.query.value| ==> q.query.value[i] as int < 0x80) && (q.line.Some? ==> q.line.value >= 1)
            ==> ValidRequest(q)
  {
    if q.query.Some? {
      BytesAndCharacters(q.query.value);
    }
  }
}
