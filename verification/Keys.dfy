/** The three formatted identity strings of src/query.rs, src/query_incremental.rs
    and src/composite.rs, and exactly when each one identifies its parts. */
module Keys {
  import opened Text

  datatype Span = Span(startLine: int, startColumn: int, endLine: int, endColumn: int)

  /** Rust's Debug rendering of `[i64; 4]`. */
  function SpanText(s: Span): (t: string)
    ensures ':' !in t
  {
    "[" + IntText(s.startLine) + "," + (" " + IntText(s.startColumn) + ","
    + (" " + IntText(s.endLine) + "," + (" " + IntText(s.endColumn) + "]")))
  }

  /** `path:span:arm`, the coalescing key of the incremental inventory. */
  function CoordinateKey(path: string, span: Span, arm: string): string {
    path + ":" + SpanText(span) + ":" + arm
  }

  /** `kind:path:symbol:span:arm`, the identity of one observation. */
  function ObservationKey(kind: string, path: string, symbol: string, span: Span, arm: string): string {
    kind + ":" + path + ":" + symbol + ":" + SpanText(span) + ":" + arm
  }

  /** `logical_source_id:start:end:discriminator`. */
  function RegionKey(id: string, startLine: int, endLine: int, discriminator: string): string {
    id + ":" + IntText(startLine) + ":" + IntText(endLine) + ":" + discriminator
  }

  lemma SpanTextInjective(s: Span, t: Span)
    requires SpanText(s) == SpanText(t)
    ensures s == t
  {
    var s2, s3, s4 := " " + IntText(s.startColumn), " " + IntText(s.endLine), " " + IntText(s.endColumn) + "]";
    var t2, t3, t4 := " " + IntText(t.startColumn), " " + IntText(t.endLine), " " + IntText(t.endColumn) + "]";
    var s1, t1 := "[" + IntText(s.startLine), "[" + IntText(t.startLine);
    SplitFirst(s1, s2 + "," + (s3 + "," + s4), t1, t2 + "," + (t3 + "," + t4), ',');
    SplitFirst(s2, s3 + "," + s4, t2, t3 + "," + t4, ',');
    SplitFirst(s3, s4, t3, t4, ',');
    Unwrap("[", s.startLine, "", t.startLine);
    Unwrap(" ", s.startColumn, "", t.startColumn);
    Unwrap(" ", s.endLine, "", t.endLine);
    Unwrap(" ", s.endColumn, "]", t.endColumn);
  }

  lemma Unwrap(before: string, m: int, after: string, n: int)
    requires before + IntText(m) + after == before + IntText(n) + after
    ensures m == n
  {
    var x, y := before + IntText(m) + after, before + IntText(n) + after;
    assert x[|before|..|x| - |after|] == IntText(m) && y[|before|..|y| - |after|] == IntText(n);
    IntTextInjective(m, n);
  }

  /** The span and arm at the right end of a key are always recoverable. */
  lemma TailInjective(a: string, s: Span, arm: string, b: string, t: Span, brm: string)
    requires ':' !in arm && ':' !in brm
    requires a + ":" + SpanText(s) + ":" + arm == b + ":" + SpanText(t) + ":" + brm
    ensures a == b && s == t && arm == brm
  {
    SplitLast(a + ":" + SpanText(s), arm, b + ":" + SpanText(t), brm, ':');
    SplitLast(a, SpanText(s), b, SpanText(t), ':');
    SpanTextInjective(s, t);
  }

  /** The incremental key identifies path, span and arm, whatever colons the paths hold. */
  lemma CoordinateKeyInjective(p: string, s: Span, arm: string, q: string, t: Span, brm: string)
    requires ':' !in arm && ':' !in brm
    ensures CoordinateKey(p, s, arm) == CoordinateKey(q, t, brm) <==> p == q && s == t && arm == brm
  {
    if CoordinateKey(p, s, arm) == CoordinateKey(q, t, brm) { TailInjective(p, s, arm, q, t, brm); }
  }

  /** The observation key loses exactly the cut between path and symbol. */
  lemma ObservationKeyCollision(k: string, p: string, f: string, s: Span, arm: string,
                                l: string, q: string, g: string, t: Span, brm: string)
    requires ':' !in arm && ':' !in brm && ':' !in k && ':' !in l
    ensures ObservationKey(k, p, f, s, arm) == ObservationKey(l, q, g, t, brm)
            <==> k == l && s == t && arm == brm && p + ":" + f == q + ":" + g
  {
    var x, y := p + ":" + f, q + ":" + g;
    assert k + ":" + x == k + ":" + p + ":" + f && l + ":" + y == l + ":" + q + ":" + g;
    if ObservationKey(k, p, f, s, arm) == ObservationKey(l, q, g, t, brm) {
      TailInjective(k + ":" + x, s, arm, l + ":" + y, t, brm);
      SplitFirst(k, x, l, y, ':');
    }
  }

  /** Colon-free paths, or colon-free symbols, make the observation key an identity. */
  lemma ObservationKeyInjective(k: string, p: string, f: string, s: Span, arm: string,
                                l: string, q: string, g: string, t: Span, brm: string)
    requires ':' !in arm && ':' !in brm && ':' !in k && ':' !in l
    requires (':' !in p && ':' !in q) || (':' !in f && ':' !in g)
    requires ObservationKey(k, p, f, s, arm) == ObservationKey(l, q, g, t, brm)
    ensures k == l && p == q && f == g && s == t && arm == brm
  {
    ObservationKeyCollision(k, p, f, s, arm, l, q, g, t, brm);
    if ':' !in p && ':' !in q { SplitFirst(p, f, q, g, ':'); } else { SplitLast(p, f, q, g, ':'); }
  }

  /** Two different functions in differently named files can share one observation key. */
  lemma ObservationKeyAmbiguous(s: Span)
    ensures ObservationKey("regions", "a:b", "c", s, "") == ObservationKey("regions", "a", "b:c", s, "")
  {
    assert "regions" + ":" + "a:b" + ":" + "c" == "regions" + ":" + "a" + ":" + "b:c";
  }

  lemma NestRight(a: string, b: string, c: string, d: string)
    ensures a + ":" + b + ":" + c + ":" + d == a + ":" + (b + ":" + (c + ":" + d))
  {
  }

  /** A composite region key identifies its parts when ids, or discriminators, are colon-free. */
  lemma RegionKeyInjective(i: string, a: int, b: int, d: string, j: string, x: int, y: int, e: string)
    requires (':' !in i && ':' !in j) || (':' !in d && ':' !in e)
    requires RegionKey(i, a, b, d) == RegionKey(j, x, y, e)
    ensures i == j && a == x && b == y && d == e
  {
    var ta, tb, tx, ty := IntText(a), IntText(b), IntText(x), IntText(y);
    if ':' !in i && ':' !in j {
      NestRight(i, ta, tb, d);
      NestRight(j, tx, ty, e);
      SplitFirst(i, ta + ":" + (tb + ":" + d), j, tx + ":" + (ty + ":" + e), ':');
      SplitFirst(ta, tb + ":" + d, tx, ty + ":" + e, ':');
      SplitFirst(tb, d, ty, e, ':');
    } else {
      SplitLast(i + ":" + ta + ":" + tb, d, j + ":" + tx + ":" + ty, e, ':');
      SplitLast(i + ":" + ta, tb, j + ":" + tx, ty, ':');
      SplitLast(i, ta, j, tx, ':');
    }
    IntTextInjective(a, x);
    IntTextInjective(b, y);
  }

  function RegionTail(startLine: int, endLine: int, discriminator: string): string {
    IntText(startLine) + ":" + (IntText(endLine) + ":" + discriminator)
  }

  /** Id i is id j with one more part z, and j's region text starts with that part and goes
      on with i's region text. */
  predicate Absorbs(i: string, p: string, j: string, q: string) {
    |j| < |i| && i[..|j|] == j && i[|j|] == ':' && q == i[|j| + 1..] + ":" + p
  }

  lemma AbsorbsIff(i: string, p: string, j: string, q: string)
    requires |j| < |i|
    ensures i + ":" + p == j + ":" + q <==> Absorbs(i, p, j, q)
  {
    var x, y := i + ":" + p, j + ":" + q;
    if x == y {
      assert x[..|j|] == i[..|j|] && y[..|j|] == j && x[|j|] == i[|j|] && y[|j|] == ':';
      assert y[|j| + 1..] == q && x[|j| + 1..] == i[|j| + 1..] + ":" + p;
    }
    if Absorbs(i, p, j, q) {
      assert i == j + ":" + i[|j| + 1..];
    }
  }

  lemma SameLength(i: string, p: string, j: string, q: string)
    requires |i| == |j|
    ensures i + ":" + p == j + ":" + q <==> i == j && p == q
  {
    var x, y := i + ":" + p, j + ":" + q;
    assert x[..|i|] == i && y[..|j|] == j && x[|i| + 1..] == p && y[|j| + 1..] == q;
  }

  lemma TailParts(a: int, b: int, d: string, x: int, y: int, e: string)
    ensures RegionTail(a, b, d) == RegionTail(x, y, e) <==> a == x && b == y && d == e
  {
    if RegionTail(a, b, d) == RegionTail(x, y, e) {
      SplitFirst(IntText(a), IntText(b) + ":" + d, IntText(x), IntText(y) + ":" + e, ':');
      SplitFirst(IntText(b), d, IntText(y), e, ':');
      IntTextInjective(a, x);
      IntTextInjective(b, y);
    }
  }

  /** Exactly which regions share a key: equal ones, and those where the longer id absorbs the
      beginning of the other region's text. */
  lemma RegionKeyCollision(i: string, a: int, b: int, d: string, j: string, x: int, y: int, e: string)
    ensures RegionKey(i, a, b, d) == RegionKey(j, x, y, e) <==>
              || (i == j && a == x && b == y && d == e)
              || Absorbs(i, RegionTail(a, b, d), j, RegionTail(x, y, e))
              || Absorbs(j, RegionTail(x, y, e), i, RegionTail(a, b, d))
  {
    var p, q := RegionTail(a, b, d), RegionTail(x, y, e);
    NestRight(i, IntText(a), IntText(b), d);
    NestRight(j, IntText(x), IntText(y), e);
    if |j| < |i| {
      AbsorbsIff(i, p, j, q);
    } else if |i| < |j| {
      AbsorbsIff(j, q, i, p);
    } else {
      SameLength(i, p, j, q);
      TailParts(a, b, d, x, y, e);
    }
  }

  /** Without that condition two different regions of two sources share one key. */
  lemma RegionKeyAmbiguous()
    ensures RegionKey("a", 1, 2, "3:4:x") == RegionKey("a:1:2", 3, 4, "x")
  {
    assert IntText(1) == "1" && IntText(2) == "2" && IntText(3) == "3" && IntText(4) == "4";
    assert RegionKey("a", 1, 2, "3:4:x") == "a:1:2:3:4:x";
    assert RegionKey("a:1:2", 3, 4, "x") == "a:1:2:3:4:x";
  }
}
