/** Lexicographic keys and the stable sort used by the answer groups. */
module Ordering {

  type Key = seq<seq<int>>

  predicate IntsLeq(a: seq<int>, b: seq<int>) {
    a == [] || (b != [] && (a[0] < b[0] || (a[0] == b[0] && IntsLeq(a[1..], b[1..]))))
  }

  predicate Leq(a: Key, b: Key) {
    a == [] || (b != [] && if a[0] == b[0] then Leq(a[1..], b[1..]) else IntsLeq(a[0], b[0]))
  }

  lemma {:induction false} IntsTotal(a: seq<int>, b: seq<int>)
    ensures IntsLeq(a, b) || IntsLeq(b, a)
    ensures IntsLeq(a, b) && IntsLeq(b, a) ==> a == b
  {
    if a != [] && b != [] && a[0] == b[0] {
      IntsTotal(a[1..], b[1..]);
      assert a == [a[0]] + a[1..] && b == [b[0]] + b[1..];
    }
  }

  lemma {:induction false} IntsTransitive(a: seq<int>, b: seq<int>, c: seq<int>)
    requires IntsLeq(a, b) && IntsLeq(b, c)
    ensures IntsLeq(a, c)
  {
    if a != [] && a[0] == b[0] == c[0] {
      IntsTransitive(a[1..], b[1..], c[1..]);
    }
  }

  lemma {:induction false} Total(a: Key, b: Key)
    ensures Leq(a, b) || Leq(b, a)
    ensures Leq(a, b) && Leq(b, a) ==> a == b
  {
    if a != [] && b != [] {
      IntsTotal(a[0], b[0]);
      if a[0] == b[0] {
        Total(a[1..], b[1..]);
        assert a == [a[0]] + a[1..] && b == [b[0]] + b[1..];
      }
    }
  }

  lemma {:induction false} Transitive(a: Key, b: Key, c: Key)
    requires Leq(a, b) && Leq(b, c)
    ensures Leq(a, c)
  {
    if a != [] {
      if a[0] == b[0] && b[0] == c[0] {
        Transitive(a[1..], b[1..], c[1..]);
      } else {
        if a[0] != b[0] && b[0] != c[0] {
          IntsTransitive(a[0], b[0], c[0]);
          IntsTotal(a[0], b[0]);
          IntsTotal(b[0], c[0]);
        }
      }
    }
  }

  ghost predicate Sorted<T>(xs: seq<T>, key: T -> Key) {
    forall i, j :: 0 <= i < j < |xs| ==> Leq(key(xs[i]), key(xs[j]))
  }

  /** Insertion behind every element that is not larger: equal keys keep their order. */
  function Insert<T>(xs: seq<T>, x: T, key: T -> Key): (r: seq<T>)
    ensures multiset(r) == multiset(xs) + multiset{x}
  {
    if xs == [] || Leq(key(xs[|xs| - 1]), key(x)) then xs + [x]
    else
      assert xs == xs[..|xs| - 1] + [xs[|xs| - 1]];
      Insert(xs[..|xs| - 1], x, key) + [xs[|xs| - 1]]
  }

  function Sort<T>(xs: seq<T>, key: T -> Key): (r: seq<T>)
    ensures multiset(r) == multiset(xs)
  {
    if xs == [] then []
    else
      assert xs == xs[..|xs| - 1] + [xs[|xs| - 1]];
      Insert(Sort(xs[..|xs| - 1], key), xs[|xs| - 1], key)
  }

  lemma {:induction false} InsertSorted<T>(xs: seq<T>, x: T, key: T -> Key)
    requires Sorted(xs, key)
    ensures Sorted(Insert(xs, x, key), key)
  {
    if xs == [] {
    } else if Leq(key(xs[|xs| - 1]), key(x)) {
      forall i | 0 <= i < |xs| ensures Leq(key(xs[i]), key(x)) {
        if i < |xs| - 1 { Transitive(key(xs[i]), key(xs[|xs| - 1]), key(x)); }
      }
    } else {
      var rest, last := xs[..|xs| - 1], xs[|xs| - 1];
      InsertSorted(rest, x, key);
      Total(key(last), key(x));
      var r := Insert(rest, x, key);
      forall i | 0 <= i < |r| ensures Leq(key(r[i]), key(last)) {
        assert r[i] in multiset(r);
        assert r[i] in rest || r[i] == x;
      }
    }
  }

  lemma {:induction false} SortSorted<T>(xs: seq<T>, key: T -> Key)
    ensures Sorted(Sort(xs, key), key)
  {
    if xs != [] {
      SortSorted(xs[..|xs| - 1], key);
      InsertSorted(Sort(xs[..|xs| - 1], key), xs[|xs| - 1], key);
    }
  }

  lemma LeastFirst<T>(a: seq<T>, x: T, key: T -> Key)
    requires Sorted(a, key) && x in a
    ensures Leq(key(a[0]), key(x))
  {
    var j :| 0 <= j < |a| && a[j] == x;
    Total(key(x), key(x));
  }

  lemma SameHead<T>(a: seq<T>, b: seq<T>, key: T -> Key)
    requires Sorted(a, key) && Sorted(b, key) && a != [] && b != [] && a[0] in b && b[0] in a
    requires forall x, y :: x in a && y in a && key(x) == key(y) ==> x == y
    ensures a[0] == b[0]
  {
    LeastFirst(a, b[0], key);
    LeastFirst(b, a[0], key);
    Total(key(a[0]), key(b[0]));
    assert a[0] in a;
  }

  lemma Tail<T>(a: seq<T>)
    requires a != []
    ensures multiset(a[1..]) == multiset(a) - multiset{a[0]} && forall x :: x in a[1..] ==> x in a
  {
    assert a == [a[0]] + a[1..];
  }

  /** A multiset has one sorted arrangement when keys tell its elements apart. */
  lemma {:induction false} SortedUnique<T>(a: seq<T>, b: seq<T>, key: T -> Key)
    requires Sorted(a, key) && Sorted(b, key) && multiset(a) == multiset(b)
    requires forall x, y :: x in a && y in a && key(x) == key(y) ==> x == y
    ensures a == b
  {
    assert |a| == |multiset(a)| == |multiset(b)| == |b|;
    if a != [] {
      SameRest(a, b, key);
      SortedUnique(a[1..], b[1..], key);
      assert a == [a[0]] + a[1..] && b == [b[0]] + b[1..];
    }
  }

  lemma SameRest<T>(a: seq<T>, b: seq<T>, key: T -> Key)
    requires Sorted(a, key) && Sorted(b, key) && multiset(a) == multiset(b) && a != [] && b != []
    requires forall x, y :: x in a && y in a && key(x) == key(y) ==> x == y
    ensures a[0] == b[0] && multiset(a[1..]) == multiset(b[1..])
  {
    assert a[0] in multiset(b) && b[0] in multiset(a);
    SameHead(a, b, key);
    Tail(a);
    Tail(b);
  }

  /** The last element of one arrangement, found in another. */
  lemma TakeOut<T>(a: seq<T>, b: seq<T>) returns (left: seq<T>, right: seq<T>)
    requires a != [] && multiset(a) == multiset(b)
    ensures b == left + [a[|a| - 1]] + right && multiset(a[..|a| - 1]) == multiset(left + right)
  {
    var rest, o := a[..|a| - 1], a[|a| - 1];
    assert a == rest + [o];
    assert o in multiset(b);
    var i :| 0 <= i < |b| && b[i] == o;
    left, right := b[..i], b[i + 1..];
    assert b == left + [o] + right;
    assert multiset(a) == multiset(rest) + multiset{o};
    assert multiset(b) == multiset(left + right) + multiset{o};
    assert multiset(rest) == multiset(a) - multiset{o};
    assert multiset(left + right) == multiset(b) - multiset{o};
  }
}
