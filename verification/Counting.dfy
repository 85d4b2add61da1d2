/** Counting labelled items bucket by bucket. */
module Counting {

  ghost function Bucket<K, L>(labels: map<K, L>, b: L): set<K> {
    set c | c in labels && labels[c] == b
  }

  lemma BucketStep<K, L>(labels: map<K, L>, c: K, b: L, x: L)
    requires c !in labels
    ensures |Bucket(labels[c := b], x)| == |Bucket(labels, x)| + if x == b then 1 else 0
  {
    var after := Bucket(labels[c := b], x);
    if x == b {
      assert after == Bucket(labels, x) + {c};
    } else {
      assert after == Bucket(labels, x);
    }
  }

  function Count<L>(counts: map<L, nat>, b: L): nat { if b in counts then counts[b] else 0 }

  /** Every bucket counts exactly its items. */
  ghost predicate Counted<K, L(!new)>(labels: map<K, L>, counts: map<L, nat>) {
    forall b :: Count(counts, b) == |Bucket(labels, b)|
  }

  lemma CountOne<K, L(!new)>(labels: map<K, L>, counts: map<L, nat>, c: K, b: L)
    requires Counted(labels, counts) && c !in labels
    ensures Counted(labels[c := b], counts[b := Count(counts, b) + 1])
  {
    var labels', counts' := labels[c := b], counts[b := Count(counts, b) + 1];
    forall x ensures Count(counts', x) == |Bucket(labels', x)| {
      assert Count(counts, x) == |Bucket(labels, x)|;
      BucketStep(labels, c, b, x);
    }
  }

  lemma Apart<T>(all: set<T>, a: set<T>, b: set<T>)
    requires all == a + b && a !! b
    ensures |all| == |a| + |b|
  {
  }

  lemma Inside<T>(a: set<T>, b: set<T>)
    requires a <= b
    ensures |a| <= |b| && |b - a| == |b| - |a| && (|a| == |b| <==> a == b)
  {
    assert b == a + (b - a);
  }

  predicate NoRepeats<T(==)>(s: seq<T>) {
    forall i, j :: 0 <= i < j < |s| ==> s[i] != s[j]
  }

  /** Taking one item off a worklist. */
  lemma Shift<T>(all: set<T>, todo: set<T>, x: T)
    requires todo <= all && x in todo
    ensures x !in all - todo && all - (todo - {x}) == (all - todo) + {x} && todo - {x} <= all
  {
  }

  ghost function Below(n: nat, p: nat -> bool): set<nat> { set i: nat | i < n && p(i) }

  lemma BelowStep(n: nat, p: nat -> bool)
    ensures |Below(n + 1, p)| == |Below(n, p)| + if p(n) then 1 else 0
  {
    if p(n) {
      assert Below(n + 1, p) == Below(n, p) + {n};
    } else {
      assert Below(n + 1, p) == Below(n, p);
    }
  }
}
