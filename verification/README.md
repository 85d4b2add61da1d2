# Verified model of coverage-mcp

coverage-mcp stores coverage reports, answers questions about them within a 12 KiB budget, and
runs one daemon per registry that connectors of newer releases may take over. This project models
its hardest parts in Dafny and proves what they promise over every input, every order of inputs,
and every interleaving.

| part | modules |
|---|---|
| formatted keys, decimal text | `Text`, `Keys` |
| source receipts, incremental union | `Measurements`, `Incremental`, `IncrementalLaws`, `IncrementalAnswer` |
| composite assembly and its reader | `Composite`, `CompositeAssemble`, `CompositeBuild`, `CompositeLaws`, `CompositeOrder`, `CompositeSize`, `CompositeArtifacts`, `CompositeRows`, `CompositeReader`, `CompositeExample`, `Counting` |
| daemon ownership and handoff | `Lease`, `Handoff`, `HandoffProofs`, `HandoffReads`, `HandoffProgress`, `HandoffEndings`, `Releases` |
| query watchdog | `Watchdog` |
| grouping, bounded answers, paging | `Ordering`, `Grouping`, `GroupingOrder`, `Paging` |
| comparison of two measurements | `Compare`, `CompareVerdict` |
| report builder and parsers | `Builder`, `Totals`, `Lcov`, `LcovCursor`, `LcovLaws`, `LcovMeaning`, `LcovText`, `Go`, `Xml` |

`dafny verify dfyconfig.toml` checks everything.

How to read it. Loops of the source are methods proved against a function or a predicate, the
builder is a class, and the daemon protocol and the watchdog are transition systems whose runs are
arbitrary lists of actions, so a theorem about runs speaks about every interleaving. Where the
source promises something that the code does not keep, the model follows the code, a lemma gives
the failing input, and another lemma gives the exact condition under which the promise holds:

- A `complete` composite need not be readable (`CompositeExample.CompleteButUnreadable`); it is
  readable exactly when every declared variant of every region has an artifact that names the
  region (`CompositeReader.CompleteReadableIff`). The comment at src/composite.rs:1079-1083 says
  that a composite with a missing or stale producer cannot be complete; a variant that was
  ingested but is silent about a region does not prevent it.
- With a repeated descriptor the order of inputs matters, and evidence of another revision can
  end up counted as covered (`CompositeOrder.RepeatedOrderMatters`). Every order gives the same
  build exactly when, for every region and declared variant, all artifacts of the variant's slot
  would leave the region in one state (`CompositeOrder.OrderFreeIff`), in particular without
  repetition (`CompositeOrder.OrderFree`). A composite with a repeated descriptor is still
  `incomplete`.
- Formatted keys collide when both neighbouring parts hold colons
  (`Keys.ObservationKeyAmbiguous`, `Keys.RegionKeyAmbiguous`); `Keys.ObservationKeyCollision` and
  `Keys.RegionKeyCollision` say exactly when. Colliding region keys shrink the denominator
  (`CompositeSize.DenominatorCanShrink`, exactly then: `CompositeSize.DenominatorIff`). Colliding
  observation keys let a filtered comparison lose a covered row without reporting a change
  (`CompareVerdict.FilterBreaksTheBooks`); the counts balance exactly when as many shared live
  rows leave the selection as enter it (`Compare.ConservationIff`).
- src/lock.rs:148-151 says that an owner is reported only while the daemon holds the lease. A
  reader gets a dead daemon's text in three ways: another reader's probe holds the lock
  (`HandoffReads.StaleOwnerReported`), the lock is released between the try and the read
  (`HandoffReads.StaleAfterRelease`), or the next process holds the lock and has not written yet
  (`HandoffReads.StaleUnderSuccessor`). In every run the report is true exactly when the lock is
  held by a process past truncating the previous text (`HandoffReads.ReportTrueIff`). The handoff
  theorem holds all the same.
- A verdict of the source check depends on the file order exactly when one file cannot be read
  and another one mismatches (`Measurements.VerdictOrder`).
- After a call is over an interrupt can still come exactly when the call panicked before it was
  interrupted (`Watchdog.LateIff`).

## Model

| member | source | states |
|---|---|---|
| `Keys.CoordinateKeyInjective` | src/query_incremental.rs:16-22 | path:span:arm names one coordinate, for all paths, colons included (both directions) |
| `Keys.ObservationKeyCollision` | src/query.rs:242-250 | exactly which observations share a key: those that agree on everything but where path ends and function begins |
| `Keys.ObservationKeyInjective` | src/query.rs:242-250 | keys are injective when no path, or no function, holds a colon |
| `Keys.ObservationKeyAmbiguous` | src/query.rs:242-250 | two different observations with one key |
| `Keys.RegionKeyInjective` | src/composite.rs:1356-1363 | region keys are injective when all logical ids, or all discriminators, are colon-free |
| `Keys.RegionKeyCollision` | src/composite.rs:1356-1363 | exactly which regions share a key: equal ones, and those where the longer id absorbs the beginning of the other region's text |
| `Keys.RegionKeyAmbiguous` | src/composite.rs:1356-1363 | two different regions with one key |
| `Measurements.CheckSources` | src/query.rs:402-424 | the scan over the files yields the verdict defined without a scan |
| `Measurements.VerdictMeaning` | src/query.rs:402-424 | when all files can be read, a mismatch anywhere beats any missing hash, and a missing hash beats a match |
| `Measurements.VerdictOrder` | src/query.rs:402-424 | every file order gives one verdict if and only if no unreadable file meets a mismatching one |
| `Measurements.VerdictFails` | src/query.rs:412-422 | the check fails if and only if a file cannot be read before any that mismatches |
| `Measurements.NothingToVerify` | src/query.rs:403-408 | without hashes or files nothing is verified |
| `Measurements.MatchPinsFile` | src/query.rs:402-424 | a matching measurement pins every measured file to the checkout's digest |
| `Incremental.Inventory` | src/query_incremental.rs:6-25 | coalescing keeps exactly the set of keys, the covered keys, and whether all are measured, in any row order |
| `Incremental.MergeCoalesces` | src/query_incremental.rs:10-25 | one insertion keeps the maximum of hits per coordinate |
| `Incremental.CoalescedMeaning` | src/query_incremental.rs:6-25 | keys, covered keys and measured keys of a coalesced map are those of the observations |
| `Incremental.Totals` | src/query_incremental.rs:27-30 | covered, total and missing are set sizes and the subtraction cannot underflow |
| `Incremental.Detailed` | src/query_incremental.rs:32-43 | the detail check compares exactly the reported totals with the key sets |
| `Incremental.Admit` | src/query_incremental.rs:195-231 | the guard's outcome and its priority among failed tests, format, conflict, build, detail and inventory |
| `Incremental.Take` | src/query_incremental.rs:106-131 | one earlier batch is refused, or adds exactly its covered keys and no key |
| `Incremental.FoldPrevious` | src/query_incremental.rs:106-131 | the loop carries the union, the latch and the trust flag of everything read, or stops where the scan stops |
| `Incremental.OpenBaseline` | src/query_incremental.rs:66-105 | the baseline's own guards |
| `Incremental.Gain` | src/query_incremental.rs:146-152 | the gain is the set difference, and "already covered" cannot underflow |
| `Incremental.Weigh` | src/query_incremental.rs:144-193 | all reported numbers are those of the sets, for any map contents |
| `Incremental.Combine` | src/query_incremental.rs:66-193 | the whole batch-by-batch computation equals set union over a fixed denominator, with the same refusals |
| `IncrementalLaws.AcceptedIff` | src/query_incremental.rs:66-142 | a combined result exists if and only if the baseline and every batch pass alone and all known build ids agree |
| `IncrementalLaws.ScanPasses` | src/query_incremental.rs:106-142 | latching the first known build id amounts to pairwise agreement |
| `IncrementalLaws.PreviousIsASet` | src/query_incremental.rs:106-164 | permuting or repeating earlier batches changes nothing |
| `IncrementalLaws.CombinedMeaning` | src/query_incremental.rs:93-193 | the key set is the baseline's inventory and the covered keys are the union of all reports' covered keys |
| `IncrementalLaws.Conservation` | src/query_incremental.rs:144-193 | combined = accepted + newly covered, missing drops by as much, the total is fixed and never zero |
| `IncrementalLaws.Telescope` | src/query_incremental.rs:106-164 | what a call combines is what the next call accepts |
| `IncrementalLaws.RepeatGainsNothing` | src/query_incremental.rs:146-152 | a batch already folded in gains nothing |
| `IncrementalLaws.GainShrinks` | src/query_incremental.rs:146-152 | a batch's gain never grows with more earlier batches |
| `IncrementalLaws.GainsAddUp` | src/query_incremental.rs:106-164 | over any chain of calls the gains add up to the growth of the covered set |
| `IncrementalLaws.VerifiedReceiptsAgree` | src/query_incremental.rs:45-64 | in a verified result any two reports that measured a file have the same hash for it, the checkout's, though hashes are only compared with the baseline |
| `IncrementalAnswer.KeysMeaning` | src/query_incremental.rs:6-25 | keys, covered keys and measured keys, read off the rows |
| `IncrementalAnswer.OneCoordinate` | src/query_incremental.rs:16-22 | native rows are one coordinate if and only if path, span and arm agree |
| `IncrementalAnswer.CombinedAnswer` | src/query_incremental.rs:144-193 | every number, set and status of a combined answer from rows and receipts: improved, no_gain and limited each if and only if |
| `IncrementalAnswer.AnswerExplained` | src/query_incremental.rs:66-142 | which answer there is: the baseline's fault, the first report that does not load, or the first that fails with its first failing check |
| `IncrementalAnswer.ExplainedOnce` | src/query_incremental.rs:195-231 | no other answer is explained by the same reports |
| `CompositeAssemble.TakeClaims` | src/composite.rs:917-963 | one artifact's regions: reasons, hash mismatches, and the observed map tracking coverage and peak hits |
| `CompositeAssemble.RecordTracks` | src/composite.rs:953-962 | recording one more region keeps the observed map equal to "any covered" and "largest hits" |
| `CompositeAssemble.CheckDescriptor` | src/composite.rs:838-905 | the final status after overrides and every descriptor reason |
| `CompositeAssemble.GatherInputs` | src/composite.rs:834-978 | the input loop carries exactly what the inputs yield |
| `CompositeAssemble.AuditEntries` | src/composite.rs:979-1039 | the entry loop's reasons and mismatched sources |
| `CompositeAssemble.ExpectedRegions` | src/composite.rs:1170-1196 | the expected map is the insertions in order, the last one winning |
| `CompositeAssemble.VariantOf` | src/composite.rs:1046-1078 | the state of one variant by the priority chain, with the peak of the accepted hits |
| `CompositeAssemble.RowFor` | src/composite.rs:1044-1126 | one row: a state per declared variant, the first state of the priority list, whether the region counts as covered, and its remediation counts |
| `CompositeAssemble.RegionRows` | src/composite.rs:1040-1126 | all rows, the covered keys and the remediation counts, in any order of the regions |
| `CompositeAssemble.BucketsPartition` | src/composite.rs:1240-1249 | every variant state falls into exactly one bucket |
| `CompositeAssemble.RemediationAddsUp` | src/composite.rs:1087-1089 | the remediation counts of an assembled build add up to the declared variants over all expected regions |
| `CompositeAssemble.Assemble` | src/composite.rs:802-1168 | status, counts, reasons, rows and remediation of the whole assembly |
| `CompositeArtifacts.ClaimMeaning` | src/composite.rs:906-936 | evidence is about its own source, or else about the one that the last alias of its path names; the rest is unchanged |
| `CompositeArtifacts.InputMembers` | src/composite.rs:834-837 | exactly the coverage artifacts take part |
| `CompositeArtifacts.ExpectedMeaning` | src/composite.rs:1170-1196 | the expected keys are those of the regions of production entries |
| `CompositeArtifacts.ReportedIff` | src/composite.rs:834-1086 | when a region is reported as covered, said of the artifacts, their aliases and their evidence |
| `CompositeArtifacts.CoveredCount` | src/composite.rs:1127-1128 | the covered count is the number of regions with a covered variant, the total the number of rows |
| `CompositeArtifacts.CompleteFromArtifacts` | src/composite.rs:809-1134 | `complete` if and only if checkout, artifacts, entries and every region's evidence are as the design asks |
| `CompositeRows.RowMeaning` | src/composite.rs:1096-1110 | a row shows the first listed state that one of its variants has |
| `CompositeRows.RowVariants` | src/composite.rs:1170-1180 | a row lists the declared variants in order, or the one variant "default" |
| `CompositeRows.HitsMeaning` | src/composite.rs:953-962 | a measured variant shows the largest count of its slot's accepted evidence |
| `CompositeRows.RemediationMeaning` | src/composite.rs:1240-1249 | each remediation count is the number of variants in the states it names |
| `CompositeRows.ReasonsMeaning` | src/composite.rs:809-1039 | each of the fifteen reasons is given if and only if its condition holds |
| `CompositeLaws.GatherMembers` | src/composite.rs:834-978 | every collected reason, mismatch and observation comes from some input, and conversely |
| `CompositeLaws.StatusOf` | src/composite.rs:843-905 | without repeated descriptors each slot has its own artifact's status |
| `CompositeLaws.CoveredIff` | src/composite.rs:1043-1086 | a region is covered if and only if the checkout is clean, its sources match, and one ingested, allowed, revision-consistent artifact of its own component covers and never contradicts it |
| `CompositeLaws.DirtyCoversNothing` | src/composite.rs:1060-1062 | a dirty checkout covers nothing |
| `CompositeLaws.ReasonsEmpty` | src/composite.rs:809-1039 | no reason is recorded if and only if checkout, inputs and entries are all clean |
| `CompositeLaws.CompleteIff` | src/composite.rs:1127-1134 | `complete` if and only if the evidence is full: everything the design asks for, said without loops |
| `CompositeOrder.OrderFree` | src/composite.rs:826-1134 | without repeated descriptors the whole build is the same for every input order |
| `CompositeOrder.StateMeaning` | src/composite.rs:1046-1078 | the state of a variant, read off inputs and checkout; only the status of its slot depends on order |
| `CompositeOrder.OrderFreeIff` | src/composite.rs:834-1134 | every input order gives one build if and only if all artifacts of a slot would leave each of its regions in one state |
| `CompositeOrder.RepeatedOrderMatters` | src/composite.rs:843-860 | for any inventory and checkout, a stale and a clean artifact of one slot give a covered count of at least 1 in one order and 0 in the other |
| `CompositeOrder.MoreEvidenceNeverUncovers` | src/composite.rs:941-962 | more hash-consistent observations never uncover a region |
| `CompositeSize.DenominatorIff` | src/composite.rs:1170-1196 | the denominator is at most the number of production regions, and equal exactly when no two keys collide |
| `CompositeSize.DenominatorIsRegionCount` | src/composite.rs:473-484 | in a parsed inventory with colon-free ids, or discriminators, every region counts once |
| `CompositeSize.DenominatorCanShrink` | src/composite.rs:1178-1193 | two sources whose region keys collide count as one region |
| `CompositeSize.SummariesAddUp` | src/composite.rs:1198-1231 | the language summaries add up to the totals |
| `CompositeSize.SummaryMeaning` | src/composite.rs:1216-1230 | totals, covered counts and completeness of a family |
| `CompositeSize.FamilyMeaning` | src/composite.rs:1204-1215 | which languages a family counts |
| `CompositeSize.LastPairKept` | src/composite.rs:1178-1193 | of several regions with one key the last is kept |
| `CompositeReader.ReadRows` | src/query.rs:786-852 | the row loop fails if and only if two rows of one path have different hashes, else yields all rows and both counts |
| `CompositeReader.Decode` | src/query.rs:786-874 | conflict, totals mismatch or the decoded rows, with one source hash per path |
| `CompositeReader.DecodeComposite` | src/query.rs:780-884 | rows, totals, then the files of the rows against the checkout, with each way to fail |
| `CompositeReader.DecodedSign` | src/query.rs:800-805 | hits are positive, zero or negative exactly for covered, uncovered and all other states |
| `CompositeReader.RowCovered` | src/composite.rs:1096-1110 | a row shows "covered" if and only if some variant covers and none is unusable |
| `CompositeReader.ReaderAcceptsIff` | src/query.rs:868-874 | the totals check accepts an assembled build if and only if no region mixes a covered variant with an unusable one |
| `CompositeBuild.BuildUnique` | src/composite.rs:1040-1168 | the judgement determines the whole build |
| `CompositeBuild.BuildOf` | src/composite.rs:1040-1168 | every judgement has a build |
| `CompositeBuild.SameBuild` | src/composite.rs:1040-1168 | the build depends only on reasons, observations and variant states |
| `CompositeReader.CompleteReadableIff` | src/query.rs:780-874 | a complete composite is readable if and only if every declared variant of every region has an artifact that names the region |
| `CompositeReader.CompleteOpens` | src/query.rs:875-884 | such a composite, read on the checkout it was built on, matches its receipt |
| `CompositeExample.CompleteButUnreadable` | src/composite.rs:1079-1134 | a complete composite that the reader refuses |
| `CompositeExample.SilenceSpoils` | src/composite.rs:1069-1076 | any silent variant makes a complete composite unreadable |
| `Lease.TornOwner` | src/lock.rs:203-229 | a lease read at any moment of its writing yields nothing usable or the writer, with only the last field cut |
| `Lease.OwnerRoundTrip` | src/lock.rs:290-323 | a completely written lease is read back exactly |
| `Lease.OwnerIsUsable` | src/lock.rs:290-323 | whatever the text, an owner has a usable pid, resource and executable |
| `Lease.TornLines` | src/lock.rs:203-229 | a cut text has whole lines and at most one cut line |
| `HandoffProofs.RunKeeps` | src/main.rs:364-681 | the protocol invariant holds after every run |
| `HandoffProofs.SingleOwner` | src/http.rs:103-120 | in every run at most one process per registry is past its lease and holds it, and a listening one is alone on its port and finds its own text in the lease file |
| `HandoffProofs.HandoffNeverDowngrades` | src/http.rs:323-345 | in every run a daemon that accepted a handoff is of the sender's registry and strictly older |
| `HandoffProofs.EnsuredOnlyCompatible` | src/main.rs:364-396 | `ensure_daemon` succeeds only after a health read of the exact version, schema and registry |
| `HandoffProgress.ArrivalSucceeds` | src/main.rs:364-396 | where nothing listens or holds the lease, an arriving connector can start its own daemon and be satisfied |
| `HandoffProgress.TakeoverSucceeds` | src/main.rs:465-681 | in every run, a connector arriving at an older token-bearing daemon can replace it: the old one exits, its own release serves |
| `HandoffProgress.ArrivalDecides` | src/main.rs:530-569 | what an arriving connector does with each health reading |
| `HandoffProgress.SendsIff` | src/main.rs:571-617 | a token is sent if and only if the lease names the observed port, executable, pid and instance |
| `HandoffEndings.NeverStuck` | src/main.rs:364-681 | in every run a connector can succeed or fail by at most five steps of its own |
| `HandoffEndings.SatisfiedIff` | src/main.rs:398-463 | in every run a health read satisfies a connector if and only if it reaches a listening daemon of its version, schema and registry |
| `HandoffEndings.AcceptIff` | src/http.rs:323-345 | a handoff is accepted if and only if the receiver holds its lease and the token is its own |
| `HandoffEndings.ReplyDecides` | src/main.rs:487-503 | a refusal ends the connector, an acceptance or a lost answer leaves it waiting for the owner to go |
| `HandoffEndings.LeaseTaken` | src/http.rs:103-120 | in every run a daemon that finds the lease taken exits and changes no lease, port or connector |
| `HandoffEndings.PortTaken` | src/http.rs:112-120 | in every run a daemon that finds its port taken exits, frees exactly its lease and leaves the listener alone |
| `HandoffEndings.CrashFrees` | src/http.rs:103-120 | in every run a crash frees everything the process held and nothing of others |
| `HandoffProofs.OwnerToken` | src/main.rs:465-528 | a token that passes the owner checks, from whatever text was in the file, is a beginning of an older daemon's token |
| `HandoffProofs.TokenPinsDaemon` | src/http.rs:323-345 | a daemon whose whole token was presented is the older daemon the connector observed |
| `HandoffProofs.DaemonKeeps` | src/http.rs:184-215 | every daemon step keeps the invariant |
| `HandoffReads.HeldOwnerExact` | src/lock.rs:160-181 | while a process that finished writing holds the lease, a reader gets exactly that process |
| `HandoffReads.ReportTrueIff` | src/lock.rs:148-181 | in every run a lease text with a token reports a process that holds the lease if and only if the lock is held by a process past truncating the previous text |
| `HandoffReads.StaleOwnerReported` | src/lock.rs:148-181 | a dead daemon is reported as owner because a probe holds the lock |
| `HandoffReads.StaleAfterRelease` | src/lock.rs:170-178 | a dead daemon is reported because the lock was released between the try and the read |
| `HandoffReads.StaleUnderSuccessor` | src/lock.rs:101-107 | a dead daemon is reported because the next holder has not written yet |
| `Releases.ReleaseRoundTrip` | src/main.rs:348-362 | a printed release is read back |
| `Releases.ReleaseIff` | src/main.rs:347-362 | a version is a stable release if and only if it is three numbers with exactly two dots between them |
| `Releases.OlderIsNumeric` | src/main.rs:340-362 | printed releases compare like the numbers with major above minor above patch |
| `Releases.UpgradesNeverCycle` | src/main.rs:530-569 | no chain of upgrades returns to a version |
| `Watchdog.RunKeeps` | src/pool.rs:131-231 | the shared-state invariant holds after every interleaving |
| `Watchdog.OutcomeMatchesInterrupt` | src/pool.rs:199-231 | own result if and only if no interrupt, timeout if and only if one, never two, none after the return |
| `Watchdog.ResultPassesThrough` | src/pool.rs:199-216 | the result handed back is the operation's own |
| `Watchdog.NeverEarlyNeverLate` | src/pool.rs:131-178 | with a sound mutex an interrupt comes only past the deadline and before completion |
| `Watchdog.NotBeforeTimeout` | src/pool.rs:131-178 | with a sound mutex no interrupt comes before the timeout of the call has passed since its watchdog started |
| `Watchdog.CallCompletes` | src/pool.rs:199-231 | in every run a call whose operation has finished can return |
| `Watchdog.LateIff` | src/pool.rs:131-231 | once a call is over, an interrupt can still come if and only if the call panicked and was not interrupted before, in every run |
| `Watchdog.PanicLeavesInterrupt` | src/pool.rs:199-216 | there is such a call for every timeout |
| `Ordering.SortedUnique` | src/query.rs:577-586 | a multiset has one sorted arrangement when keys tell its elements apart |
| `Grouping.GroupRows` | src/query.rs:559-597 | the returned page and count are those of the sorted grouping, in whatever order the map is read |
| `Grouping.GroupingPermutes` | src/query.rs:559-597 | the grouping, and every page of it, depends only on the multiset of rows |
| `Grouping.GroupsPartition` | src/query.rs:559-578 | group counts add up to the rows, no group is empty, no two have one key |
| `Grouping.ViewOf` | src/query.rs:588-594 | shown locations plus omitted equal the count; at most three are shown |
| `GroupingOrder.GroupsRanked` | src/query.rs:577-586 | larger groups come first, then path, first location and symbol in text and span order |
| `GroupingOrder.GroupMeaning` | src/query.rs:559-578 | a group holds exactly the rows of its path, function and cause, or line, ordered by span and arm |
| `GroupingOrder.EveryRowGrouped` | src/query.rs:559-574 | every row is in a group |
| `Paging.Bounded` | src/query.rs:182-219 | the pop loop ends and equals the recursive cut |
| `Paging.TrimKeeps` | src/query.rs:182-219 | for every size function an answer fits, keeps prefixes and the count, never loses all groups, and moves the continuation back by the dropped groups |
| `Paging.TrimChain` | src/query.rs:182-219 | the answer is the first in the chain that drops the last element of the heaviest array, the later of equals, and fits |
| `Paging.ComparisonRefused` | src/query.rs:182-219 | a comparison is refused only if its bare metadata is too large; exactly then for growing texts |
| `Paging.LongestFit` | src/query.rs:182-219 | a page is the longest non-empty window that fits, and is refused if and only if none fits |
| `Paging.PageLaw` | src/query.rs:599-624 | next_offset is offset plus groups returned, absent exactly at the end |
| `Paging.WalkIsComplete` | src/query.rs:559-624 | walking from 0 with any limits and any size function errors or returns every group once, in order; it gets through if and only if each group alone fits |
| `Paging.CoverageGaps` | src/query.rs:599-624 | invalid requests are refused; otherwise the page of the sorted grouping of the gaps, with its status |
| `Paging.ChosenRows` | src/query.rs:609-616 | exactly the selected rows are grouped, as often as they occur |
| `Paging.GapRows` | src/query.rs:609-616 | the gaps are the unhit rows of the metric whose path or function holds the query and whose span holds the line, as often as they occur |
| `Paging.RequestMeaning` | src/query.rs:263-271 | limits outside 1 to 20, empty or overlong queries and lines below 1 are refused, every other ASCII request is taken |
| `Paging.LimitRefused` | src/query.rs:263-266 | only limits from 1 to 20 are answered |
| `Compare.Observe` | src/query.rs:434-439 | the row map of a list of observations is their insertions in order |
| `Compare.InsertAllBuilds` | src/query.rs:434-439 | each key holds one of its rows with the maximum of its counts |
| `Compare.FirstKept` | src/query.rs:434-439 | of several rows with one key the first is kept |
| `Compare.BuiltOnce` | src/query.rs:434-524 | when keys tell rows apart, order and repetition of insertions do not matter |
| `Compare.ConservationIff` | src/query.rs:683-733 | covered counts balance with the reported changes if and only if as many shared live rows leave the selection as enter it, and totals if and only if as many shared rows do |
| `Compare.Conservation` | src/query.rs:683-733 | they balance for every filter that selects shared keys alike |
| `Compare.Swap` | src/query.rs:702-733 | swapping sides exchanges added with removed and turns gained plus covered added rows into lost ones |
| `Compare.TextSelectsAlike` | src/query.rs:252-257 | every text filter selects alike when keys determine metric, path and function |
| `Compare.NativeAgree` | src/query.rs:242-250 | they do for native rows when no path, or no function, holds a colon |
| `CompareVerdict.GuardsSymmetric` | src/query.rs:626-649 | the guards do not care which side is current, and a verified pair never conflicts |
| `CompareVerdict.StatusMeaning` | src/query.rs:740-753 | each status if and only if, for any scope and filter, said of rows and receipts |
| `CompareVerdict.ChangesMeaning` | src/query.rs:762-763 | when changes, a full scope and a regression count are reported |
| `CompareVerdict.FilterMeaning` | src/query.rs:252-257 | a comparison selects the rows of its metric whose path or function holds the query |
| `CompareVerdict.ChangeCounts` | src/query.rs:702-733 | the four counts for sets given by their rows |
| `CompareVerdict.ImprovementReversed` | src/query.rs:740-753 | a full improvement read backwards is a regression |
| `CompareVerdict.NoGainBothWays` | src/query.rs:740-753 | no gain in both directions if and only if both sides cover the same rows |
| `CompareVerdict.FilterBreaksTheBooks` | src/query.rs:683-733 | with colliding keys one live row leaves the selection and none enters, so a covered row vanishes without a reported change |
| `Builder.PlusCommutes` | src/models.rs:53-72 | merging reports commutes on rows that `add_line` stores |
| `Builder.PlusAssociates` | src/models.rs:53-72 | and is associative |
| `Builder.CoverageBuilder.AddLine` | src/models.rs:236-280 | one call merges exactly one row into the report, or nothing for lines below 1 |
| `Builder.CoverageBuilder.AddTestName` | src/models.rs:296-301 | a name that is not blank is added trimmed, nothing else changes |
| `Builder.CoverageBuilder.AddTestObservation` | src/models.rs:304-330 | one observation and its test name are added, or nothing |
| `Totals.Build` | src/models.rs:333-427 | a file for every path with rows or metrics; each total is the sum over exactly the file's rows, or the metric that replaces it |
| `Totals.FilesAddUp` | src/models.rs:159-191 | a report total counts every row once, for every measure and file order |
| `Totals.ReportLines` | src/models.rs:159-168 | total and covered lines are the numbers of counted and covered places |
| `Totals.BuiltLines` | src/models.rs:333-427 | the line totals of a built report are the numbers of counted and covered places when no metric replaces them |
| `Totals.FileMeaning` | src/models.rs:353-407 | each of a file's eight totals has its own metric and its own sum |
| `Totals.BuiltSums` | src/models.rs:159-191 | branch and function totals of a report are sums over all rows when no metric replaces them |
| `Totals.CoveredWithinTotal` | src/models.rs:159-184 | no total is below its covered count when no row's is |
| `Lcov.ParseLcov` | src/parser.rs:224-323 | the parser fails at the first failing line, else the builder holds the sum of what each line adds |
| `LcovCursor.RefusedIff` | src/parser.rs:256-322 | a tracefile is refused if and only if a record inside a file cannot be read, call counts only for functions the file placed |
| `LcovCursor.CursorFile` | src/parser.rs:245-255 | the file in effect is that of the last SF since the last end_of_record |
| `LcovCursor.CursorTest` | src/parser.rs:237-255 | the test in effect is that of the last TN since the last end_of_record |
| `LcovCursor.CursorFunctions` | src/parser.rs:277-281 | the known functions are those placed since the file was opened, the latest FN of a name counting |
| `LcovLaws.Homomorphism` | src/parser.rs:224-361 | when a ends in end_of_record, a++b fails if and only if a or b does, and otherwise is the merge |
| `LcovLaws.RecordOrder` | src/parser.rs:224-361 | permuting whole records changes neither the report nor whether there is one |
| `LcovMeaning.LinesMeaning` | src/parser.rs:259-276 | a line is counted if and only if it has a DA record in effect, covered if and only if one has positive hits, and has their maximum |
| `LcovMeaning.BranchMeaning` | src/parser.rs:325-361 | branch counts are the numbers of BRDA records and of those taken |
| `LcovMeaning.FunctionMeaning` | src/parser.rs:277-311 | function counts are the numbers of FNDA records whose function the latest FN of the file's record placed on the line, and of those with positive calls |
| `LcovMeaning.NamesMeaning` | src/parser.rs:237-244 | the named tests are the trimmed names on TN lines |
| `LcovMeaning.PlacesMeaning` | src/parser.rs:259-322 | a place has a row if and only if a record of it was read |
| `LcovMeaning.TestsMeaning` | src/parser.rs:272-322 | a test is credited with exactly the positive records read under its name |
| `LcovMeaning.CoveredWithinTotal` | src/models.rs:159-184 | no tracefile is reported as covering more than it counts |
| `LcovText.RecordsReadBack` | src/parser.rs:259-311 | printed DA, FN and FNDA records are read back, whatever the names hold |
| `LcovText.BranchReadsBack` | src/parser.rs:325-361 | so are printed BRDA records |
| `LcovText.DataFields` | src/parser.rs:259-269 | which DA payloads are read, and which are broken |
| `LcovText.FunctionFields` | src/parser.rs:277-289 | FN and FNDA payloads are cut at the first comma |
| `LcovText.BranchFields` | src/parser.rs:325-340 | BRDA payloads with four fields |
| `LcovText.BranchNeedsFour` | src/parser.rs:331-334 | BRDA payloads with fewer fields are broken |
| `LcovText.DispatchName` | src/parser.rs:237-249 | TN and SF lines keep their whole text |
| `Go.Expand` | src/parser.rs:762-781 | a block adds its row to each of its lines and nothing else |
| `Go.ParseGo` | src/parser.rs:727-789 | the parser fails if and only if the header, a record or a block is refused, else holds the sum of the blocks |
| `Go.RecordReadsBack` | src/parser.rs:741-756 | a printed block is read back, whatever colons and commas its path holds |
| `Go.BlocksMeaning` | src/parser.rs:768-781 | a line counts if some block touches it, is covered if a touching block ran, and has their largest count |
| `Go.BlockSetDecides` | src/parser.rs:727-789 | order and repetition of blocks do not matter |
| `Xml.ParseXml` | src/parser.rs:993-1022 | the loop equals the stack machine, failing on any unreadable event |
| `Xml.RunContent` | src/parser.rs:1024-1038 | inside any state, nested markup attaches exactly its trees |
| `Xml.NestedParses` | src/parser.rs:993-1038 | properly nested events give back their tree, noise ignored |
| `Xml.UnclosedRoot` | src/parser.rs:993-1038 | a document cut anywhere before its root is closed is an error |
| `Xml.StrayEnd` | src/parser.rs:1031-1038 | an end tag without a start discards the result |
| `Xml.FindNodes` | src/parser.rs:1064-1068 | all matching nodes in preorder |
| `Xml.Descendants` | src/parser.rs:1070-1079 | all matching nodes below the root, in preorder |
| `Xml.RootThenDescendants` | src/parser.rs:1064-1088 | the search is the root match followed by the descendants |
| `Xml.FoundIff` | src/parser.rs:1064-1088 | the search finds exactly the nodes of that name at any depth |

## Left out

- src/storage.rs and src/service.rs are not part of this model: saved measurements are values, and storing a composite is the identity between `assemble` and `decode_composite`.
- HTTP routing, request bodies, the dashboard, command lines and the MCP schemas: input and output only.
- Signalling a pre-handoff daemon by pid: only the guard that the observation was read again unchanged is modelled; pids may be reused.
- `daemon_request_with_recovery` and the time limits of the polling loops: giving up is an action that may happen at any step.
- Executable paths are compared as given and hold no line breaks; instance ids and tokens are fresh texts of 36 characters.
- SHA-256, zstd, DuckDB, XML tokenizing, JSON decoding, number syntax, lower-casing and demangling are parameters or typed inputs.
- Percentages and every other floating-point field; counts are unbounded integers.
- Field-by-field JSON validation of inventories, descriptors and reports: what it guarantees is taken as given.
- Path and format normalization is applied before the composite model starts; in the builder it is an arbitrary function.
- The limit of 16 earlier batches: the incremental theorems hold for any number.
- coverage.py, Cobertura, JaCoCo, Istanbul and LLVM report parsers and line details: they would add members of the kind already here.
- The evidence and provenance records that assembly copies through unchanged.
- `QueryTracker`: a counter map with easy members.
- `render` and the truncation of warnings.
- Compare.Observe: starts from a list of observations, because taking them out of LLVM function records is field-by-field validation.
- HandoffProgress.ArrivalSucceeds: takes fresh identities for the new daemon as given, because the system draws them at random; so does HandoffProgress.TakeoverSucceeds.
- HandoffEndings.NeverStuck: takes a fresh identity as given for the daemon the connector may still have to start, for the same reason.
- HandoffReads.ReportTrueIff: speaks of texts with a token, because a pre-handoff daemon's text names no instance and two such daemons may write equal texts.
- `add_file_metrics` collecting metrics call by call: the model takes the collected metrics of each file.
