/** The composite assembler of src/composite.rs: data, and what each phase yields. */
module Composite {
  import opened Text
  import opened Keys

  // ---------- inventory ----------

  datatype Region = Region(startLine: int, endLine: int, discriminator: string)

  /** The language families the assembler tells apart. */
  datatype Language = Rust | Wgsl | Wasm | Python | Javascript | Js | OtherLanguage(name: string)

  /** Formats are in their normalized spelling, paths are repository-relative. */
  datatype Entry = Entry(source: string, path: string, package: string, component: string, language: Language,
                         production: bool, hash: string, variants: seq<string>, formats: seq<string>,
                         regions: seq<Region>)

  datatype Inventory = Inventory(revision: string, entries: seq<Entry>)

  /** One expected region and what its entry says about it. */
  datatype Expected = Expected(entry: Entry, region: Region)

  function KeyOf(source: string, r: Region): string {
    RegionKey(source, r.startLine, r.endLine, r.discriminator)
  }

  function Variants(e: Entry): (vs: seq<string>)
    ensures vs != []
  {
    if e.variants == [] then ["default"] else e.variants
  }

  function Production(entries: seq<Entry>): (ps: seq<Entry>)
    ensures forall e :: e in ps <==> e in entries && e.production
  {
    if entries == [] then []
    else if entries[0].production then [entries[0]] + Production(entries[1..])
    else Production(entries[1..])
  }

  // ---------- evidence ----------

  datatype Slot = Slot(component: string, variant: string)

  datatype Status = Ingested | Missing | SkippedStale | StaleEvidence | FormatMismatch | OtherStatus(name: string)

  datatype Evidence = Evidence(path: string, source: Option<string>, region: Region, hits: int, covered: bool,
                               hash: Option<string>)

  datatype Alias = Alias(path: string, source: string)

  datatype Artifact = Artifact(slot: Slot, language: Language, format: string, coverage: bool, aliases: seq<Alias>,
                               revision: Option<string>, status: Status, regions: seq<Evidence>)

  /** One evidence region after alias resolution; `source` is absent when nothing names it. */
  datatype Claim = Claim(source: Option<string>, key: string, covered: bool, hits: int, hash: Option<string>)

  datatype Input = Input(slot: Slot, language: Language, format: string, revision: Option<string>, status: Status,
                         claims: seq<Claim>)

  /** The alias map: a later alias of a path replaces an earlier one. */
  function AliasOf(aliases: seq<Alias>, path: string): Option<string> {
    if aliases == [] then None
    else
      var last := aliases[|aliases| - 1];
      if last.path == path then Some(last.source) else AliasOf(aliases[..|aliases| - 1], path)
  }

  /** An explicit logical source wins over the alias of the evidence path. */
  function Resolve(aliases: seq<Alias>, e: Evidence): Claim {
    var source := if e.source.Some? then e.source else AliasOf(aliases, e.path);
    Claim(source, if source.Some? then KeyOf(source.value, e.region) else "", e.covered, e.hits, e.hash)
  }

  function InputOf(a: Artifact): Input {
    Input(a.slot, a.language, a.format, a.revision, a.status,
          seq(|a.regions|, i requires 0 <= i < |a.regions| => Resolve(a.aliases, a.regions[i])))
  }

  /** Only coverage artifacts take part. */
  function Inputs(artifacts: seq<Artifact>): seq<Input> {
    if artifacts == [] then []
    else if artifacts[0].coverage then [InputOf(artifacts[0])] + Inputs(artifacts[1..])
    else Inputs(artifacts[1..])
  }

  // ---------- reasons and states ----------

  datatype Reason =
    | NoProduction
    | RevisionMismatch
    | DirtyCheckout
    | StaleRevision(slot: Slot)
    | DuplicateSlot(slot: Slot)
    | NotIngested(slot: Slot, status: Status)
    | NotOwned(slot: Slot)
    | WrongFormat(format: string, slot: Slot)
    | NoAlias(slot: Slot)
    | Unowned(key: string)
    | HashMismatch(source: string)
    | UnsupportedLanguage(source: string, language: Language)
    | MissingVariant(slot: Slot)
    | SourceMissing(path: string)
    | FormatUnused(format: string, source: string)

  datatype RegionState = SourceMismatch | MissingArtifact | Stale | Unmeasured | Covered | Uncovered

  datatype VariantState = VariantState(variant: string, state: RegionState, hits: int)

  datatype Row = Row(expected: Expected, state: RegionState, variants: seq<VariantState>)

  datatype Bucket = TestGap | InstrumentationGap | GeneratedVariantGap | MismatchBucket | NoBucket

  /** `remediation_for_state`. */
  function BucketOf(s: RegionState): Bucket {
    match s
    case Uncovered => TestGap
    case Unmeasured => InstrumentationGap
    case MissingArtifact => GeneratedVariantGap
    case Stale => InstrumentationGap
    case SourceMismatch => MismatchBucket
    case Covered => NoBucket
  }

  // ---------- phase one: the inputs ----------

  /** What the input loop reads: the expected regions and the inventory revision. */
  datatype Target = Target(expected: map<string, Expected>, revision: string)

  predicate OwnedBy(x: Expected, slot: Slot) {
    x.entry.component == slot.component && slot.variant in Variants(x.entry)
  }

  predicate Owned(t: Target, slot: Slot) {
    exists key :: key in t.expected && OwnedBy(t.expected[key], slot)
  }

  predicate Allowed(t: Target, i: Input) {
    exists key :: key in t.expected && OwnedBy(t.expected[key], i.slot) && i.format in t.expected[key].entry.formats
  }

  predicate RevisionOk(t: Target, i: Input) {
    i.revision.Some? ==> i.revision.value == t.revision
  }

  /** The descriptor status after the overrides: a wrong format beats a stale revision. */
  function FinalStatus(t: Target, i: Input): Status {
    if !Allowed(t, i) then FormatMismatch else if !RevisionOk(t, i) then StaleEvidence else i.status
  }

  datatype Seen = Seen(slot: Slot, key: string, covered: bool, hits: int)

  datatype Effects = Effects(reasons: set<Reason>, mismatches: set<(Slot, string)>, seen: set<Seen>)

  predicate HashOk(t: Target, c: Claim)
    requires c.key in t.expected
  {
    c.hash.Some? ==> c.hash.value == t.expected[c.key].entry.hash
  }

  /** One evidence region of an input whose format is allowed. */
  function ClaimEffects(t: Target, slot: Slot, c: Claim): Effects {
    if c.source.None? then Effects({NoAlias(slot)}, {}, {})
    else if c.key !in t.expected then Effects({Unowned(c.key)}, {}, {})
    else if !HashOk(t, c) then Effects({HashMismatch(c.source.value)}, {(slot, c.key)}, {})
    else Effects({}, {}, {Seen(slot, c.key, c.covered, c.hits)})
  }

  function Join(a: Effects, b: Effects): Effects {
    Effects(a.reasons + b.reasons, a.mismatches + b.mismatches, a.seen + b.seen)
  }

  function AllClaims(t: Target, slot: Slot, cs: seq<Claim>): Effects {
    if cs == [] then Effects({}, {}, {})
    else Join(AllClaims(t, slot, cs[..|cs| - 1]), ClaimEffects(t, slot, cs[|cs| - 1]))
  }

  function InputEffects(t: Target, i: Input): Effects {
    if Allowed(t, i) then AllClaims(t, i.slot, i.claims) else Effects({}, {}, {})
  }

  function DescriptorReasons(t: Target, i: Input): set<Reason> {
    (if RevisionOk(t, i) then {} else {StaleRevision(i.slot)})
    + (if i.status.Ingested? then {} else {NotIngested(i.slot, i.status)})
    + (if Owned(t, i.slot) then {} else {NotOwned(i.slot)})
    + (if Allowed(t, i) then {} else {WrongFormat(i.format, i.slot)})
  }

  datatype Gathered = Gathered(effects: Effects, statuses: map<Slot, Status>)

  function Add(t: Target, g: Gathered, i: Input): Gathered {
    var again: set<Reason> := if i.slot in g.statuses then {DuplicateSlot(i.slot)} else {};
    Gathered(Join(Join(g.effects, Effects(DescriptorReasons(t, i) + again, {}, {})), InputEffects(t, i)),
             g.statuses[i.slot := FinalStatus(t, i)])
  }

  /** Everything the input loop collects. Descriptors seen so far are the keys of `statuses`. */
  function Gather(t: Target, inputs: seq<Input>): Gathered {
    if inputs == [] then Gathered(Effects({}, {}, {}), map[])
    else Add(t, Gather(t, inputs[..|inputs| - 1]), inputs[|inputs| - 1])
  }

  // ---------- phase two: the production entries ----------

  /** The checkout: its revision, whether it is dirty, and the digest of every readable path. */
  datatype Checkout = Checkout(revision: Option<string>, dirty: bool, disk: map<string, string>)

  predicate SourceOk(c: Checkout, e: Entry) {
    e.path in c.disk && c.disk[e.path] == e.hash
  }

  predicate Supported(language: Language) {
    !language.OtherLanguage?
  }

  predicate FormatUsed(inputs: seq<Input>, e: Entry, format: string) {
    exists i :: i in inputs && i.slot.component == e.component && i.language == e.language && i.format == format
  }

  predicate ComponentPresent(slots: set<Slot>, component: string) {
    exists s :: s in slots && s.component == component
  }

  function EntryReasons(c: Checkout, slots: set<Slot>, inputs: seq<Input>, e: Entry): set<Reason> {
    (if Supported(e.language) then {} else {UnsupportedLanguage(e.source, e.language)})
    + (set v | v in Variants(e) && Slot(e.component, v) !in slots :: MissingVariant(Slot(e.component, v)))
    + (if SourceOk(c, e) then {} else if e.path in c.disk then {HashMismatch(e.source)} else {SourceMissing(e.path)})
    + (set f | f in e.formats && !FormatUsed(inputs, e, f) && ComponentPresent(slots, e.component) :: FormatUnused(f, e.source))
  }

  datatype Audit = Audit(reasons: set<Reason>, badSources: set<string>)

  function AuditOne(c: Checkout, slots: set<Slot>, inputs: seq<Input>, e: Entry): Audit {
    Audit(EntryReasons(c, slots, inputs, e), if SourceOk(c, e) then {} else {e.source})
  }

  function AuditAll(c: Checkout, slots: set<Slot>, inputs: seq<Input>, es: seq<Entry>): Audit {
    if es == [] then Audit({}, {})
    else
      var rest, last := AuditAll(c, slots, inputs, es[..|es| - 1]), AuditOne(c, slots, inputs, es[|es| - 1]);
      Audit(rest.reasons + last.reasons, rest.badSources + last.badSources)
  }

  // ---------- phase three: the regions ----------

  /** What the region loop reads. */
  datatype Evidenced = Evidenced(seen: set<Seen>, mismatches: set<(Slot, string)>, statuses: map<Slot, Status>,
                                 badSources: set<string>, dirty: bool)

  predicate SeenAt(v: Evidenced, slot: Slot, key: string) {
    exists s :: s in v.seen && s.slot == slot && s.key == key
  }

  predicate CoveredAt(v: Evidenced, slot: Slot, key: string) {
    exists s :: s in v.seen && s.slot == slot && s.key == key && s.covered
  }

  predicate Mismatched(v: Evidenced, slot: Slot, source: string, key: string) {
    source in v.badSources || (slot, key) in v.mismatches
  }

  /** The priority chain of one variant of one region. */
  function StateOf(v: Evidenced, x: Expected, key: string, variant: string): RegionState {
    var slot := Slot(x.entry.component, variant);
    if Mismatched(v, slot, x.entry.source, key) then SourceMismatch
    else if v.dirty && slot in v.statuses && v.statuses[slot].Ingested? then Stale
    else if slot !in v.statuses || v.statuses[slot].Missing? then MissingArtifact
    else if v.statuses[slot].SkippedStale? then Stale
    else if !v.statuses[slot].Ingested? then Unmeasured
    else if CoveredAt(v, slot, key) then Covered
    else if SeenAt(v, slot, key) then Uncovered
    else Unmeasured
  }

  /** A region is covered when any variant of its own component covers it. */
  predicate RegionCovered(v: Evidenced, x: Expected, key: string) {
    exists variant :: variant in Variants(x.entry) && StateOf(v, x, key, variant).Covered?
  }

  function CoveredKeys(v: Evidenced, expected: map<string, Expected>): set<string> {
    set key | key in expected && RegionCovered(v, expected[key], key)
  }

  /** The first state of the priority list that some variant has. */
  function RowState(states: set<RegionState>): RegionState {
    if SourceMismatch in states then SourceMismatch
    else if MissingArtifact in states then MissingArtifact
    else if Stale in states then Stale
    else if Unmeasured in states then Unmeasured
    else if Covered in states then Covered
    else if Uncovered in states then Uncovered
    else Unmeasured
  }

  function StatesOf(v: Evidenced, x: Expected, key: string): set<RegionState> {
    set variant | variant in Variants(x.entry) :: StateOf(v, x, key, variant)
  }

  // ---------- expected regions ----------

  datatype Keyed = Keyed(key: string, expected: Expected)

  /** The insertions `expected_regions` makes, in order. */
  function EntryPairs(e: Entry): (ps: seq<Keyed>)
    ensures |ps| == |e.regions|
  {
    seq(|e.regions|, j requires 0 <= j < |e.regions| => Keyed(KeyOf(e.source, e.regions[j]), Expected(e, e.regions[j])))
  }

  function AllPairs(es: seq<Entry>): seq<Keyed> {
    if es == [] then [] else AllPairs(es[..|es| - 1]) + EntryPairs(es[|es| - 1])
  }

  /** A later insertion under the same key replaces an earlier one. */
  function FromPairs(ps: seq<Keyed>): map<string, Expected> {
    if ps == [] then map[] else FromPairs(ps[..|ps| - 1])[ps[|ps| - 1].key := ps[|ps| - 1].expected]
  }

  function ExpectedOf(es: seq<Entry>): map<string, Expected> {
    FromPairs(AllPairs(es))
  }

  // ---------- the result ----------

  function HeaderReasons(inv: Inventory, c: Checkout): set<Reason> {
    (if Production(inv.entries) == [] then {NoProduction} else {})
    + (if c.revision == Some(inv.revision) then {} else {RevisionMismatch})
    + (if c.dirty then {DirtyCheckout} else {})
  }

  function TargetOf(inv: Inventory): Target {
    Target(ExpectedOf(Production(inv.entries)), inv.revision)
  }

  datatype Verdict = Verdict(reasons: set<Reason>, evidenced: Evidenced)

  function Judge(inv: Inventory, inputs: seq<Input>, c: Checkout): Verdict {
    var g := Gather(TargetOf(inv), inputs);
    var a := AuditAll(c, g.statuses.Keys, inputs, Production(inv.entries));
    Verdict(HeaderReasons(inv, c) + g.effects.reasons + a.reasons,
            Evidenced(g.effects.seen, g.effects.mismatches, g.statuses, a.badSources, c.dirty))
  }

  predicate Complete(inv: Inventory, inputs: seq<Input>, c: Checkout) {
    var j, expected := Judge(inv, inputs, c), ExpectedOf(Production(inv.entries));
    j.reasons == {} && |expected| > 0 && |CoveredKeys(j.evidenced, expected)| == |expected|
  }
}
