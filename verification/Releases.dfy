/** `ReleaseVersion` of src/main.rs: the order behind every handoff. */
module Releases {
  import opened Text
  import opened Handoff

  function Printed(r: Release): string { NatText(r.major) + "." + (NatText(r.minor) + "." + NatText(r.patch)) }

  predicate InRange(r: Release) { r.major < U64_LIMIT && r.minor < U64_LIMIT && r.patch < U64_LIMIT }

  lemma NumberReads(n: nat)
    requires n < U64_LIMIT
    ensures ParseUnsigned(NatText(n), U64_LIMIT) == Some(n) && '.' !in NatText(n)
  {
    NatRoundTrip(n);
  }

  lemma ThreeNumbers(version: string, a: string, b: string, c: string, r: Release)
    requires Split(version, '.') == [a, b, c]
    requires ParseUnsigned(a, U64_LIMIT) == Some(r.major) && ParseUnsigned(b, U64_LIMIT) == Some(r.minor)
    requires ParseUnsigned(c, U64_LIMIT) == Some(r.patch)
    ensures ParseRelease(version) == Some(r)
  {
  }

  /** A printed release is read back. */
  lemma ReleaseRoundTrip(r: Release)
    requires InRange(r)
    ensures ParseRelease(Printed(r)) == Some(r)
  {
    NumberReads(r.major);
    NumberReads(r.minor);
    NumberReads(r.patch);
    ThreeParts(NatText(r.major), NatText(r.minor), NatText(r.patch), '.');
    ThreeNumbers(Printed(r), NatText(r.major), NatText(r.minor), NatText(r.patch), r);
  }

  /** The text is these three parts between its only two dots. */
  predicate Dotted(version: string, a: string, b: string, c: string) {
    version == a + "." + (b + "." + c) && '.' !in a && '.' !in b && '.' !in c
  }

  predicate Reads(a: string, n: nat) { ParseUnsigned(a, U64_LIMIT) == Some(n) }

  /** A version is a stable release exactly when it is three numbers with two dots between them. */
  lemma ReleaseIff(version: string, r: Release)
    ensures ParseRelease(version) == Some(r) <==>
              (exists a, b, c :: Dotted(version, a, b, c) && Reads(a, r.major) && Reads(b, r.minor) && Reads(c, r.patch))
  {
    if ParseRelease(version) == Some(r) {
      PartsOfThree(version, '.');
      var p := Split(version, '.');
      assert Dotted(version, p[0], p[1], p[2]) && Reads(p[0], r.major) && Reads(p[1], r.minor) && Reads(p[2], r.patch);
    }
    if a, b, c :| Dotted(version, a, b, c) && Reads(a, r.major) && Reads(b, r.minor) && Reads(c, r.patch) {
      ThreeParts(a, b, c, '.');
      ThreeNumbers(version, a, b, c, r);
    }
  }

  /** Releases compare by number, not by text: 0.10.0 is newer than 0.9.0. */
  lemma OlderIsNumeric(a: Release, b: Release)
    requires InRange(a) && InRange(b)
    ensures Older(Printed(a), Printed(b)) <==> Value(a) < Value(b)
  {
    ReleaseRoundTrip(a);
    ReleaseRoundTrip(b);
  }

  /** The release as one number: major above minor above patch. */
  function Value(r: Release): nat { (r.major * U64_LIMIT + r.minor) * U64_LIMIT + r.patch }

  /** Following upgrades only ever moves forward, so no chain of them returns to a version. */
  lemma {:induction false} UpgradesNeverCycle(versions: seq<string>)
    requires |versions| >= 2 && forall i :: 0 <= i < |versions| - 1 ==> Older(versions[i], versions[i + 1])
    ensures Older(versions[0], versions[|versions| - 1]) && versions[0] != versions[|versions| - 1]
  {
    if |versions| > 2 {
      var rest := versions[..|versions| - 1];
      UpgradesNeverCycle(rest);
      assert rest[|rest| - 1] == versions[|versions| - 2];
      OlderTransitive(versions[0], versions[|versions| - 2], versions[|versions| - 1]);
    } else {
      OlderTransitive(versions[0], versions[1], versions[1]);
    }
  }

  lemma OlderTransitive(u: string, v: string, w: string)
    ensures Older(u, v) && Older(v, w) ==> Older(u, w)
    ensures Older(u, v) ==> u != v
  {
  }
}
