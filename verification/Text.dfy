/** Decimal text and the separator arguments behind every formatted key. */
module Text {

  datatype Option<+T> = None | Some(value: T)

  /** Decimal digits of a natural number, as Rust's Display writes them. */
  function NatText(n: nat): (s: string)
    ensures |s| > 0
    ensures forall i :: 0 <= i < |s| ==> '0' <= s[i] <= '9'
  {
    var digit := '0' + (n % 10) as char;
    if n < 10 then [digit] else NatText(n / 10) + [digit]
  }

  function IntText(n: int): (s: string)
    ensures |s| > 0
    ensures forall i :: 0 <= i < |s| ==> s[i] == '-' || '0' <= s[i] <= '9'
  {
    if n < 0 then "-" + NatText(-n) else NatText(n)
  }

  predicate Digits(s: string) {
    |s| > 0 && forall i :: 0 <= i < |s| ==> '0' <= s[i] <= '9'
  }

  /** The number a digit string denotes; leading zeros are allowed, as in `str::parse`. */
  function NatValue(s: string): nat
    requires Digits(s)
  {
    var last := (s[|s| - 1] as int) - ('0' as int);
    if |s| == 1 then last else 10 * NatValue(s[..|s| - 1]) + last
  }

  /** `str::parse` for an unsigned type: one optional plus sign, then digits in range. */
  function ParseUnsigned(s: string, limit: nat): Option<nat> {
    var digits := if |s| > 0 && s[0] == '+' then s[1..] else s;
    if Digits(digits) && NatValue(digits) < limit then Some(NatValue(digits)) else None
  }

  function IndexOf(s: string, c: char): (i: nat)
    ensures i <= |s| && c !in s[..i] && (i < |s| ==> s[i] == c)
  {
    if s == "" || s[0] == c then 0 else
      var i := 1 + IndexOf(s[1..], c);
      assert s[..i] == [s[0]] + s[1..][..i - 1];
      i
  }

  lemma {:induction false} NatRoundTrip(n: nat)
    ensures Digits(NatText(n)) && NatValue(NatText(n)) == n
  {
    if n >= 10 {
      NatRoundTrip(n / 10);
      assert NatText(n)[..|NatText(n)| - 1] == NatText(n / 10);
    }
  }

  lemma IntTextInjective(m: int, n: int)
    requires IntText(m) == IntText(n)
    ensures m == n
  {
    NatRoundTrip(if m < 0 then -m else m);
    NatRoundTrip(if n < 0 then -n else n);
    assert m < 0 <==> IntText(m)[0] == '-';
    assert n < 0 <==> IntText(n)[0] == '-';
    if m < 0 {
      assert IntText(m)[1..] == NatText(-m) && IntText(n)[1..] == NatText(-n);
    }
  }

  /** Cutting at the first separator is unambiguous when the left parts have none. */
  lemma SplitFirst(a: string, b: string, c: string, d: string, sep: char)
    requires sep !in a && sep !in c
    requires a + [sep] + b == c + [sep] + d
    ensures a == c && b == d
  {
    var x, y := a + [sep] + b, c + [sep] + d;
    assert x[|a|] == sep && y[|c|] == sep;
    assert forall i | 0 <= i < |c| :: y[i] == c[i];
    assert forall i | 0 <= i < |a| :: x[i] == a[i];
    assert x[..|a|] == a && y[..|c|] == c;
    assert x[|a| + 1..] == b && y[|c| + 1..] == d;
  }

  /** Cutting at the last separator is unambiguous when the right parts have none. */
  lemma SplitLast(a: string, b: string, c: string, d: string, sep: char)
    requires sep !in b && sep !in d
    requires a + [sep] + b == c + [sep] + d
    ensures a == c && b == d
  {
    var x, y := a + [sep] + b, c + [sep] + d;
    assert x[|a|] == sep && y[|c|] == sep;
    assert forall i | |a| < i < |x| :: x[i] == b[i - |a| - 1];
    assert forall i | |c| < i < |y| :: y[i] == d[i - |c| - 1];
    assert x[..|a|] == a && y[..|c|] == c;
    assert x[|a| + 1..] == b && y[|c| + 1..] == d;
  }

  predicate StartsWith(s: string, prefix: string) { |prefix| <= |s| && s[..|prefix|] == prefix }

  /** The parts between separators; there is always at least one. */
  function Split(s: string, sep: char): (parts: seq<string>)
    ensures |parts| >= 1 && (sep !in s ==> parts == [s])
    decreases |s|
  {
    var i := IndexOf(s, sep);
    if i == |s| then [s] else [s[..i]] + Split(s[i + 1..], sep)
  }

  lemma FirstCut(a: string, rest: string, sep: char)
    requires sep !in a
    ensures IndexOf(a + [sep] + rest, sep) == |a|
    ensures (a + [sep] + rest)[..|a|] == a && (a + [sep] + rest)[|a| + 1..] == rest
    ensures Split(a + [sep] + rest, sep) == [a] + Split(rest, sep)
  {
    var s, i := a + [sep] + rest, IndexOf(a + [sep] + rest, sep);
    assert s[|a|] == sep && forall j :: 0 <= j < |a| ==> s[j] == a[j];
    assert forall j :: 0 <= j < i ==> s[j] == s[..i][j];
    assert i == |a|;
    assert s[..|a|] == a && s[|a| + 1..] == rest;
  }

  lemma TwoParts(a: string, b: string, sep: char)
    requires sep !in a && sep !in b
    ensures Split(a + [sep] + b, sep) == [a, b]
  {
    FirstCut(a, b, sep);
  }

  lemma ThreeParts(a: string, b: string, c: string, sep: char)
    requires sep !in a && sep !in b && sep !in c
    ensures Split(a + [sep] + (b + [sep] + c), sep) == [a, b, c]
  {
    TwoParts(b, c, sep);
    FirstCut(a, b + [sep] + c, sep);
  }

  lemma CutAround(s: string, i: nat, sep: char)
    requires i < |s| && s[i] == sep
    ensures s == s[..i] + [sep] + s[i + 1..]
  {
  }

  lemma FirstPart(s: string, i: nat, sep: char)
    requires |Split(s, sep)| > 1 && i == IndexOf(s, sep)
    ensures i < |s| && s[i] == sep && sep !in s[..i]
    ensures Split(s, sep)[0] == s[..i] && Split(s, sep)[1..] == Split(s[i + 1..], sep)
  {
    var rest := Split(s[i + 1..], sep);
    assert ([s[..i]] + rest)[1..] == rest;
  }

  lemma OnlyPart(s: string, sep: char)
    requires |Split(s, sep)| == 1
    ensures sep !in s && Split(s, sep) == [s]
  {
  }

  /** A text splits in three exactly at its only two separators. */
  lemma PartsOfThree(s: string, sep: char)
    requires |Split(s, sep)| == 3
    ensures var p := Split(s, sep);
            s == p[0] + [sep] + (p[1] + [sep] + p[2]) && sep !in p[0] && sep !in p[1] && sep !in p[2]
  {
    var i := IndexOf(s, sep);
    FirstPart(s, i, sep);
    CutAround(s, i, sep);
    var t := s[i + 1..];
    var k := IndexOf(t, sep);
    FirstPart(t, k, sep);
    CutAround(t, k, sep);
    OnlyPart(t[k + 1..], sep);
  }

  // ---------- white space ----------

  /** The Unicode White_Space property. */
  predicate IsSpace(c: char) {
    var n := c as int;
    || 0x9 <= n <= 0xD || n == 0x20 || n == 0x85 || n == 0xA0 || n == 0x1680 || 0x2000 <= n <= 0x200A
    || n == 0x2028 || n == 0x2029 || n == 0x202F || n == 0x205F || n == 0x3000
  }

  function TrimStart(s: string): (r: string)
    ensures r == "" || !IsSpace(r[0])
    ensures s == "" || !IsSpace(s[0]) ==> r == s
  {
    if s != "" && IsSpace(s[0]) then TrimStart(s[1..]) else s
  }

  function TrimEnd(s: string): (r: string)
    ensures r <= s && (r == "" || !IsSpace(r[|r| - 1]))
    ensures s == "" || !IsSpace(s[|s| - 1]) ==> r == s
  {
    if s != "" && IsSpace(s[|s| - 1]) then TrimEnd(s[..|s| - 1]) else s
  }

  /** `str::trim`: nothing is left to trim, and a text without outer white space is kept. */
  function Trim(s: string): (r: string)
    ensures r == "" || (!IsSpace(r[0]) && !IsSpace(r[|r| - 1]))
    ensures s == "" || (!IsSpace(s[0]) && !IsSpace(s[|s| - 1])) ==> r == s
  {
    TrimEnd(TrimStart(s))
  }

  predicate Blank(s: string) { forall i :: 0 <= i < |s| ==> IsSpace(s[i]) }

  lemma {:induction false} TrimStartCuts(s: string) returns (i: nat)
    ensures i <= |s| && TrimStart(s) == s[i..] && Blank(s[..i])
  {
    if s != "" && IsSpace(s[0]) {
      var k := TrimStartCuts(s[1..]);
      i := k + 1;
      assert s[1..][k..] == s[i..] && s[..i] == [s[0]] + s[1..][..k];
    } else {
      i := 0;
    }
  }

  lemma {:induction false} TrimEndCuts(s: string)
    ensures TrimEnd(s) <= s && Blank(s[|TrimEnd(s)|..])
  {
    if s != "" && IsSpace(s[|s| - 1]) {
      var rest := s[..|s| - 1];
      TrimEndCuts(rest);
      assert s[|TrimEnd(s)|..] == rest[|TrimEnd(s)|..] + [s[|s| - 1]];
    }
  }

  /** Trimming cuts white space from both ends and nothing else. */
  lemma TrimCuts(s: string) returns (before: string, after: string)
    ensures s == before + Trim(s) + after && Blank(before) && Blank(after)
  {
    var i := TrimStartCuts(s);
    TrimEndCuts(s[i..]);
    before, after := s[..i], s[i..][|Trim(s)|..];
    assert s[i..] == Trim(s) + after;
  }

  // ---------- words ----------

  function WordEnd(s: string): (i: nat)
    ensures i <= |s| && (forall j :: 0 <= j < i ==> !IsSpace(s[j])) && (i < |s| ==> IsSpace(s[i]))
  {
    if s == "" || IsSpace(s[0]) then 0 else 1 + WordEnd(s[1..])
  }

  /** `str::split_whitespace`. */
  function Words(s: string): seq<string>
    decreases |s|
  {
    if s == "" then []
    else if IsSpace(s[0]) then Words(s[1..])
    else [s[..WordEnd(s)]] + Words(s[WordEnd(s)..])
  }

  /** The place of the last separator, or the length. */
  function LastIndexOf(s: string, c: char): (i: nat)
    ensures i <= |s| && (i < |s| ==> s[i] == c && c !in s[i + 1..]) && (i == |s| ==> c !in s)
  {
    if c !in s then |s|
    else if s[|s| - 1] == c then |s| - 1
    else
      var i := LastIndexOf(s[..|s| - 1], c);
      assert s == s[..|s| - 1] + [s[|s| - 1]];
      i
  }

  predicate OneWord(s: string) { s != "" && NoSpace(s) }

  lemma LastWord(a: string)
    requires OneWord(a)
    ensures Words(a) == [a]
  {
    assert WordEnd(a) == |a|;
    assert a[..|a|] == a && a[|a|..] == "";
  }

  lemma FirstWord(a: string, rest: string)
    requires OneWord(a)
    ensures Words(a + " " + rest) == [a] + Words(rest)
  {
    var s, i := a + " " + rest, WordEnd(a + " " + rest);
    assert s[0] == a[0] && s[|a|] == ' ' && forall j :: 0 <= j < |a| ==> s[j] == a[j];
    assert i == |a|;
    assert s[..i] == a && s[i..] == " " + rest && (" " + rest)[1..] == rest;
  }

  lemma ThreeWords(a: string, b: string, c: string)
    requires OneWord(a) && OneWord(b) && OneWord(c)
    ensures Words(a + " " + (b + " " + c)) == [a, b, c]
  {
    LastWord(c);
    FirstWord(b, c);
    FirstWord(a, b + " " + c);
  }

  lemma CutAt(s: string, i: nat, a: string, rest: string, sep: char)
    requires s == a + [sep] + rest && sep !in rest && i < |s| && s[i] == sep && sep !in s[i + 1..]
    ensures i == |a| && s[..i] == a && s[i + 1..] == rest
  {
    assert s == s[..i] + [sep] + s[i + 1..];
    SplitLast(a, rest, s[..i], s[i + 1..], sep);
  }

  lemma LastCut(a: string, rest: string, sep: char)
    requires sep !in rest
    ensures LastIndexOf(a + [sep] + rest, sep) == |a|
    ensures (a + [sep] + rest)[..|a|] == a && (a + [sep] + rest)[|a| + 1..] == rest
  {
    var s := a + [sep] + rest;
    assert s[|a|] == sep;
    CutAt(s, LastIndexOf(s, sep), a, rest, sep);
  }

  predicate NoSpace(s: string) { forall i :: 0 <= i < |s| ==> !IsSpace(s[i]) }

  lemma NoSpaceConcat(a: string, b: string)
    requires NoSpace(a) && NoSpace(b)
    ensures NoSpace(a + b)
  {
  }

  // ---------- numbers ----------

  /** How a number is read belongs to the platform. */
  type NumberSyntax = string -> Option<int>

  ghost predicate ReadsIntegers(number: NumberSyntax) { forall n: int :: number(IntText(n)) == Some(n) }
}
