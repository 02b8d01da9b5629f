# Courier, verified

Courier runs a coding agent against an issue or a pull request and lets nothing
leave the sandbox that has not been checked. This project models the parts of
Courier that decide what may happen and proves what they promise over all
inputs, all histories and all interleavings.

| file | models |
|---|---|
| `StatusRecords.dfy`, `StatusWriter.dfy`, `StatusProtocol.dfy` | the status boundary: patches, the retrying writer, and any number of writers interleaved with other writers and with pods that die and are replaced |
| `Branch.dfy`, `Policy.dfy` | derived branches, and the binding of a persisted publication policy to the immutable run |
| `Publication.dfy`, `PullRequests.dfy` | the publication engine with its confirmed tip, and opening the pull request at most once |
| `CriteriaPin.dfy`, `Extraction.dfy`, `ExtractionDocument.dfy`, `Evidence.dfy` | acceptance criteria: extraction, reading back what was written, pinning, and the evidence block that has to satisfy the pin |
| `Handoff.dfy`, `RunLoop.dfy` | the check before the Verifying ending, and the supervisor loop around the model child |
| `SessionTap.dfy`, `Reaper.dfy`, `ReaperProtocol.dfy` | the transport on the child's output, and the reaper of adopted children |
| `JsonScan.dfy` | finding the last JSON object in a model's answer |
| `BootstrapConfig.dfy`, `Bootstrap.dfy` | lane profiles: parsing and the API server's schema and defaults, and the reconciler |
| `Options.dfy`, `Text.dfy` | shared value types and strings |

No lemma rests on automatic induction: each recursion is written out.
Operations that change state in place are classes and methods; each is proved
against a function or predicate on values, and the theorems are about those.
What the environment answers (reads, failures, races, cancellation, other
writers, dying processes) is a parameter, so a theorem holds for every answer.

## Assumptions

- Hashing is any function to 64 lower-case hex digits. Where a theorem needs that
  two digests do not collide, it asks this of the finitely many strings hashed.
- Other writers of the run's status leave the harness-owned records and
  operations alone, pod UIDs are never reissued, a deletion is never taken back,
  and a live pod listing holds every pod that is not being deleted.
- Callers that pass authentication name the run and its control service account.
- A pull request keeps its number, repositories and head ref, is never removed
  from the forge, and is listed completely; brokers of one run are sequential, and
  a crash is a call that fails at any point followed by a restart. A create call
  may fail, create and answer, or create and lose the answer.
- The run context, once cancelled, stays cancelled.
- Where a theorem of `ReaperProtocol.dfy` asks for fresh pids, the kernel does not
  give a supervised child that leads its own group a pid whose status another run
  has taken and not yet unregistered. A pid freed during a drain pass is not taken by a process that is
  not our child.
  Commands started outside the reaper stay in the executor's process group.
- `Reaper.ChildReaper.Drain` is one drain during which nobody dies or is adopted;
  `ReaperProtocol.DrainIsBounded` is about drains in every interleaving.
- The API server validates a create before it looks for the name, and an update
  after it has compared the version.

## Where the code and its promises part

- `Publication.StrayAnchorEscapes`, `Publication.LineageExactly`: the engine's own
  validation accepts a resolve-issue policy that says the work ref was absent and
  still carries an anchor. Such a policy can confirm a tip outside its lineage when
  the anchor differs from the base commit, and the base commit itself when it does
  not; every other validated policy keeps its lineage. The binding never produces
  such a policy, so for every bound policy the lineage holds and the denial at
  internal/broker/policy.go:311 is unreachable.
- `RunLoop.UncheckedVerifyingIsReachable`: a comment at
  cmd/courier-executor/main.go:1106-1111 says that the undeclared ending without a
  session is never Verifying. The code reads the run branch a second time, so a
  commit that arrives between the two reads ends the run as Verifying with no
  pre-handoff check. `RunLoop.VerifyingExactly` gives the exact condition.
- `SessionTap.ChunkingNeverMattersExactly`: how the output is cut into writes is
  irrelevant exactly when no line is longer than the bound.
- `ReaperProtocol.StatusIsLostExactly`, `ReaperProtocol.ReissueIsReachable`: a
  drain can take the status of a supervised child. A start makes that possible
  exactly when the child leads its own group and gets a pid whose status another
  run has taken and not yet unregistered (cmd/courier-executor/reaper.go:238-259).
- `JsonScan.ExtractsTheObject`: an object after prose is found exactly when the
  prose leaves the reader outside; prose with an unclosed quote or brace hides it.
- `ExtractionDocument.OuterColonIsMissed`: a comment at
  internal/broker/criteria.go:637-639 says that bold wrappers and an optional
  trailing colon are stripped. A bold label with the colon after its stars counts as
  a heading, and its stars stay, so it never opens the acceptance section.
- `Policy.ValidationAloneDoesNotAnchor`: validation of a policy does not imply the
  anchoring that the binding establishes.
- `Handoff.FoldedModeIsUnchecked`, `RunLoop.NoChangeIsVerifiedExactly`: the
  no-change claim is checked only for the mode spelled exactly `fix-pr`
  (cmd/courier-executor/main.go:2189), while the handoff folds letter case
  (cmd/courier-executor/main.go:2104). A run in mode `Fix-PR` ends on its claim
  while its pinned pull request conflicts. The claim means something for a fix-pr
  run exactly when the mode is spelled in lower case.
- `BootstrapConfig.BlankTransportIsNeverStored`, `BootstrapConfig.StoredAsIsExactly`,
  `Bootstrap.ParsedProfilesSettleExactly`: a transport of white space parses (internal/bootstrap/config.go:140) and is then
  rejected by the schema's enumeration on every pass. Parsing promises a spec that
  the server stores as it is exactly for the other transports.

## Model

| member | source | states |
|---|---|---|
| StatusRecords.AcceptedPatchIsExact | internal/broker/status.go:242-320 | an accepted patch changes only the fields it names, carries all of them, keeps every other operation and stays within 64 operations |
| StatusRecords.AcceptsExactly | internal/broker/status.go:256-320 | a status accepts a patch exactly when, field by field, it holds no other record of the same incarnation in a slot the patch fills, times compared as instants, and the added operation is there the same or fits |
| StatusRecords.OperationsIdempotent | internal/broker/status.go:295-320 | editing the operations twice with one patch equals editing them once |
| StatusRecords.AdditionStaysAcceptable | internal/broker/status.go:295-320 | an operation that was admitted once is admitted again, also at the limit of 64 |
| StatusRecords.RetryIsIdempotent | internal/broker/status.go:242-320 | an accepted patch is accepted again on its own result and changes nothing more |
| StatusWriter.SoleIncarnation | internal/broker/status.go:201-218 | a listing that passes shows exactly the caller's incarnation among the run's control pods |
| StatusWriter.SoleIncarnationExactly | internal/broker/status.go:201-218 | a listing passes exactly when one of its pods is the caller's, live under the run and its account, and no other is |
| StatusWriter.CheckListing | internal/broker/status.go:201-218 | the loop accepts a listing exactly when the caller is the sole live control incarnation |
| StatusWriter.EditOperations | internal/broker/status.go:295-320 | the in-place edit fails exactly on a refused patch and otherwise gives the specified operations |
| StatusWriter.EditRecords | internal/broker/status.go:256-294 | records are set exactly when no different record of the same incarnation is there |
| StatusWriter.Edit | internal/broker/status.go:242-320 | the edit is all or nothing: it succeeds exactly when the whole patch is acceptable |
| StatusWriter.MayWriteExactly | internal/broker/status.go:105-176 | which patches get as far as the live reads, field by field: identity, contents, the validator beside a commit, and the form and attribution of every record |
| StatusWriter.ClosePathStaysBelow | api/v1alpha1/coderun_types.go:762-782 | a path in a close proposal has no empty, current or parent component and no backslash or control character |
| StatusWriter.SlashesSeparate | api/v1alpha1/coderun_types.go:762-782 | a path without an empty component is relative, and every slash in it stands between two components |
| StatusWriter.ClearedExactly | internal/broker/status.go:178-240 | what an attempt has observed exactly when it may update, field by field of the run, the pod and the listing |
| StatusWriter.Validate | internal/broker/status.go:178-240 | an attempt passes exactly when the run, the pod, the listing and, where the caller supplies one, the live-world validator clear the caller and an acknowledgement names the live request aimed at this incarnation; a failed read or validator is unavailable, and everything else a denial |
| StatusWriter.Write | internal/broker/status.go:105-333 | a patch that is malformed, attributes a record to another incarnation or records a commit without a validator is denied untouched; otherwise the history becomes the specified one, success is answered exactly when the first attempt that does not conflict lands and its answer arrives, through all retries and whatever versions others land in between at most one version is the caller's, and a denial or conflict left nothing behind |
| StatusWriter.UndisturbedWriteLands | internal/broker/status.go:177-333 | a cleared, acceptable write that nobody disturbs succeeds with its first attempt and adds exactly the patched successor |
| StatusWriter.TryOnce | internal/broker/status.go:179-328 | whatever versions others land before and after its read: one attempt retries exactly on a conflict, succeeds exactly when it landed and was answered, and leaves the specified history |
| StatusProtocol.ListingFences | internal/broker/status.go:180-218 | a complete listing taken after reading a version means that all older control pods are gone and that no younger incarnation wrote up to that version |
| StatusProtocol.LandingIsYoungest | internal/broker/status.go:178-328 | the compare-and-set extends that to the moment of landing |
| StatusProtocol.StepKeepsInv | internal/broker/status.go:178-328 | every step of every writer, every pod event and every other writer keeps the protocol invariant |
| StatusProtocol.ExecutionKeepsInv | internal/broker/status.go:178-328 | so does every interleaving |
| StatusProtocol.IncarnationFencing | internal/broker/status.go:178-328 | in every interleaving, once another incarnation has landed a write, no later write of the earlier one lands |
| StatusProtocol.AuthorsOnlyGetYounger | internal/broker/status.go:178-328 | landed writes come from incarnations in the order in which their pods were created |
| StatusProtocol.RecordsAreSetOnce | internal/broker/status.go:256-294 | for every control pod, any two versions of any history that hold its terminal result, no-change close or model surface hold the same record, also when another incarnation overwrote it in between |
| StatusProtocol.LandedWritesAreExact | internal/broker/status.go:242-328 | each landed version differs from the one before it only by its patch, holds it, stays bounded, is stable under a repeat of the patch, and acknowledges only the request that the version before it aimed, by id and pod UID, at the writing incarnation |
| StatusProtocol.LandedWritesAreAuthorized | internal/broker/status.go:105-176 | in every interleaving each landed write was let through, and every record, heartbeat and operation that it persists names its own incarnation |
| StatusProtocol.OperationsStayBounded | internal/broker/status.go:295-320 | no version of any execution holds more than 64 operations |
| StatusProtocol.RecordsPersist | internal/broker/status.go:256-294 | in every execution a record slot that was filled is never emptied |
| StatusProtocol.AttemptRefines | internal/broker/status.go:179-328 | one attempt of the writer, with any pod events, other writers and other harness calls before and between its three reads and its update, does to the history what these steps do in the protocol |
| StatusProtocol.WriteRefines | internal/broker/status.go:105-333 | a whole write with its retries, interleaved at every step with pod events, other writers and other harness calls, is an execution of the protocol, so all its theorems hold of what the writer writes |
| Branch.IssueBranchInjective | internal/branch/branch.go:17-43 | an issue branch determines its repository and issue |
| Branch.IssueIsNotGoal | internal/branch/branch.go:17-64 | no issue branch equals a goal branch, for any repositories, issue and key |
| Branch.GoalKeyHex | internal/branch/branch.go:45-57 | the key part of a goal branch is always twelve lower-case hex digits |
| CriteriaPin.RebuildCriteria | internal/broker/binding.go:258-269 | the loop accepts persisted criteria exactly when IDs, texts and digests are intact, and returns them unchanged |
| CriteriaPin.PinRoundTrip | internal/broker/binding.go:234-276 | a well-formed pin, once persisted, is reconstructed identically |
| CriteriaPin.AcceptedPinsAreWellPinned | internal/broker/binding.go:234-276 | only well-formed pins are accepted, and persisting one again gives the same policy |
| CriteriaPin.PinsExactly | internal/broker/binding.go:234-276 | a persisted pin is taken exactly when it is wholly absent, or names an issue and at most 32 numbered criteria within 512 bytes under their own digests and the set's |
| CriteriaPin.SetEncodingInjective | internal/broker/criteria.go:381-390 | the text that is hashed for a set determines the issue up to letter case and the ordered digests |
| CriteriaPin.SetDigestBinds | internal/broker/criteria.go:381-390 | two accepted pins with one set digest hold the same ordered criteria for the same issue up to letter case, when the strings hashed do not collide |
| CriteriaPin.PinnedIdsDistinct | internal/broker/criteria.go:366-376 | the IDs of a pin are distinct |
| Extraction.AppendLine | internal/broker/criteria.go:318-353 | reading one more line extends the acceptance section exactly while it is open |
| Extraction.ScanItems | internal/broker/criteria.go:314-353 | the scan fails exactly on a second acceptance heading and otherwise yields the items of the section |
| Extraction.PinTexts | internal/broker/criteria.go:354-379 | texts are pinned exactly when they are within the bounds, with ordered IDs and their digests |
| Extraction.ExtractCriteria | internal/broker/criteria.go:310-379 | extraction succeeds exactly for a trusted issue with at most one section within the bounds, and yields a well-formed pin of its items |
| Extraction.ExtractedPinRoundTrip | internal/broker/criteria.go:310-390 | every extracted set, once persisted, is reconstructed identically |
| ExtractionDocument.WrittenCriteriaAreExtracted | internal/broker/criteria.go:310-379 | round trip: whatever the markers, checkboxes and line breaks, the criteria written below one acceptance heading are exactly the ones extracted, in order, with single blanks between their words |
| ExtractionDocument.SectionIsBetween | internal/broker/criteria.go:318-353 | the section is exactly what stands between the acceptance heading and the next heading |
| ExtractionDocument.HashHeadingIsRead | internal/broker/criteria.go:623-650 | a heading of any level opens the section exactly when its title is acceptance in any casing |
| ExtractionDocument.BoldHeadingIsRead | internal/broker/criteria.go:623-650 | so does a bold label, with or without a colon before its closing stars |
| ExtractionDocument.OuterColonIsMissed | internal/broker/criteria.go:631-650 | a bold label with the colon after its stars is a heading and never opens the section |
| ExtractionDocument.BareHeadingIsRead | internal/broker/criteria.go:634-650 | a short label with its colon opens the section exactly when it says acceptance |
| ExtractionDocument.ViewsExactly | internal/broker/criteria.go:318-353 | what each line is, in terms of its characters: blank, heading, item, continuation or prose |
| ExtractionDocument.BulletIsRead | internal/broker/criteria.go:652-668 | a marked line, with or without a checkbox, is read as an item with exactly its text |
| ExtractionDocument.ReturnsAreDropped | internal/broker/criteria.go:314-317 | the line ending does not matter |
| Evidence.ParseRows | internal/broker/criteria.go:502-537 | the row loop gives the rows up to the first line that ends the block, or an error |
| Evidence.ParseEvidenceBlock | internal/broker/criteria.go:485-540 | the scan finds the single block, none, or an error for a second header or an impossible row |
| Evidence.ClassifiesExactly | internal/broker/criteria.go:509-537 | what each line below the header is, in terms of the two patterns and the bounds of 64 rows and 400 bytes |
| Evidence.RowsExactly | internal/broker/criteria.go:509-537 | the block ends at the first line that does not belong to it: in an error on a refused row, otherwise with exactly the rows above |
| Evidence.BlockExactly | internal/broker/criteria.go:485-540 | no block exactly without a header, the block below a single header, and an error otherwise |
| Evidence.TallyRows | internal/broker/criteria.go:438-449 | the tally counts every ID and lists exactly the unpinned ones |
| Evidence.CheckCriteria | internal/broker/criteria.go:450-459 | exactly the pinned IDs without a row, and those with a stale digest, are listed |
| Evidence.CheckShapes | internal/broker/criteria.go:460-465 | exactly the rows whose reference does not fit their status are listed |
| Evidence.ComputeCoverage | internal/broker/criteria.go:269-277 | the derived coverage is full exactly when every pinned criterion is enforced |
| Evidence.NoViolationsExact | internal/broker/criteria.go:436-479 | nothing is listed exactly when the rows are a permutation of the pinned criteria with equal digests, every shape is valid and the claimed coverage is the derived one |
| Evidence.NoIdViolationsMeansPermutation | internal/broker/criteria.go:436-459 | counting each ID once and finding no stale digest means a permutation |
| Evidence.PermutationMeansNoIdViolations | internal/broker/criteria.go:436-459 | and a permutation leaves nothing to list |
| Evidence.CheckReport | internal/broker/criteria.go:422-479 | each verdict is given exactly on its condition, and acceptance exactly on a satisfying block |
| Evidence.ValidateCriterionEvidence | internal/broker/criteria.go:401-479 | a body passes exactly when nothing is pinned or its single block satisfies the pin |
| Evidence.AcceptedFullIsEnforced | internal/broker/criteria.go:269-277 | an accepted full claim means that every row is a located regression check and every pinned criterion has its row |
| Evidence.HonestPartial | internal/broker/criteria.go:269-277 | a block that leaves a criterion unenforced is accepted only as partial |
| Evidence.CoverageExactly | internal/broker/criteria.go:269-277 | full coverage is derived exactly when every row is a located regression check |
| Evidence.SatisfiesExactly | internal/broker/criteria.go:422-567 | the contract of an accepted block, field by field: header, permutation of the pinned criteria, the note or location that each status demands, and the coverage claim |
| Policy.AcceptedPolicyIsAnchored | internal/broker/binding.go:48-219 | every policy bound to a run is valid, anchored consistently and has an admission root |
| Policy.ValidatesExactly | internal/broker/policy.go:169-262 | what validation of a policy establishes, fact by fact and in both directions |
| Policy.BindingDecides | internal/broker/binding.go:48-112 | a policy is accepted exactly when it carries the live run's UID, the trusted provider and the canonical base, its identities are complete, and the binding of its mode gives a valid policy, which is then the answer |
| Policy.IssueBindsExactly | internal/broker/binding.go:113-153 | exactly which persisted policies an issue run accepts, and that the accepted one carries them field by field with the issue of the immutable spec |
| Policy.FixPrBindsExactly | internal/broker/binding.go:154-165 | exactly which persisted policies a fix-pr run accepts: the pull request the spec names, its head anchor as work tip, and no pins |
| Policy.ContributeBindsExactly | internal/broker/binding.go:166-222 | exactly which persisted policies a contribution accepts: the approved fork under any casing, the derived branch, and no pins |
| Policy.ValidationAloneDoesNotAnchor | internal/broker/policy.go:169-262 | validation alone admits a policy that is not |
| Policy.DestinationIsDetermined | internal/broker/binding.go:48-219 | for one immutable spec, all accepted policies agree on the work ref, and on the work repository up to letter case |
| Policy.ContributionIsNotBase | internal/broker/binding.go:166-213 | a contribution never targets the base repository under any casing |
| Policy.SameFoldSameIdentity | internal/broker/binding.go:16-46 | repository identity ignores letter case |
| Policy.RepositoryNames | internal/broker/binding.go:16-38 | a repository is named exactly by an owner and a name around the last slash, blanks at the ends aside, and its identity folds both |
| Publication.PolicyEngine.constructor | internal/broker/policy.go:146-167 | an engine starts from a valid policy and no evidence |
| Publication.PolicyEngine.Check | internal/broker/policy.go:392-464 | an observation passes exactly when base, destination and pull request checks all hold |
| Publication.ChecksHoldExactly | internal/broker/policy.go:392-464 | what one observation has to show, field by field |
| Publication.PolicyEngine.Preflight | internal/broker/policy.go:268-330 | before the push a request is let through, repeated or denied, each on its exact condition |
| Publication.PolicyEngine.Publish | internal/broker/policy.go:268-390 | acceptance is a function of observations and ancestry only and ignores the push's own report; evidence is kept before the push, gone after a failed one, and the proposal after success |
| Publication.AcceptedMeansVerified | internal/broker/policy.go:268-390 | every observation an acceptance rests on shows the pinned base and the pinned, writable, unprotected work ref, for fix-pr with the open pinned pull request at its tip; in the last one the exact proposal is live and contains every base tip seen |
| Publication.PushesExactly | internal/broker/policy.go:268-347 | a push is made exactly when, in terms of the request, the observed fields and ancestry, the proposal is new, fast-forward and allowed |
| Publication.AcceptsExactly | internal/broker/policy.go:268-390 | a publication is accepted exactly when, in the same terms, the proposal is live and checked after the push, or was live and confirmed before |
| Publication.UnconfirmedPushLeavesNothing | internal/broker/policy.go:346-390 | a push that is not confirmed leaves no evidence, and a refusal before it changes none |
| Publication.PublicationKeepsLineage | internal/broker/policy.go:292-347 | one publication keeps the confirmed tip on the admitted lineage |
| Publication.LineageOfConfirmedTips | internal/broker/policy.go:292-347 | for every bound policy and every sequence of calls, remote moves and restarts, a confirmed tip descends from the admission root and is not the anchor, so a repeat is never denied at line 311 |
| Publication.StrayAnchorEscapes | internal/broker/policy.go:292-347 | a resolve-issue policy with a stray anchor other than the base commit can confirm a tip outside its lineage |
| Publication.StrayAnchorIsConfirmed | internal/broker/policy.go:317-388 | one whose stray anchor is the base commit can confirm that commit itself |
| Publication.StrayAnchorIsResolveIssue | internal/broker/policy.go:169-262 | only resolve-issue policies pass validation with a stray anchor, and without one a validated policy is anchored |
| Publication.LineageExactly | internal/broker/policy.go:169-390 | over all runs a validated policy keeps every confirmed tip on its lineage and off its anchor exactly when it has no stray anchor |
| Publication.DescentExactly | internal/broker/policy.go:169-390 | and on its lineage alone exactly when a stray anchor is the base commit |
| PullRequests.CreatedIsListed | internal/broker/forge_adapter.go:133-168 | a pull request that a broker created is always found by the pinned head |
| PullRequests.CreationCounts | internal/broker/forge_adapter.go:171-232 | a create call adds exactly one pull request of the brokers, or none when it fails without having created |
| PullRequests.ForgeAdapter.FindPullRequest | internal/broker/forge_adapter.go:133-168 | the listing answers exactly when no call fails and every claim on the pinned head is complete, and then with exactly these claims |
| PullRequests.ForgeAdapter.CreatePullRequest | internal/broker/forge_adapter.go:171-232 | it creates only after a listing without claims, and answers exactly when the create is answered under the pinned identity and reads back as the only claim |
| PullRequests.FollowingCounts | internal/broker/forge_adapter.go:171-232 | so whatever others do in between and however calls fail, it leaves at most one pull request of the brokers |
| PullRequests.CreatedUnderThePin | internal/broker/policy.go:574-577 | what is created is open under the pinned repositories and refs with the checked body |
| PullRequests.ClaimsExactly | internal/broker/policy.go:634-642 | the listing holds exactly the records of the pinned base, head repository and head ref |
| PullRequests.SoleClaimExactly | internal/broker/policy.go:634-642 | and one of them exactly when a single record is such |
| PullRequests.ForgeAdapter.PullRequest | internal/broker/forge_adapter.go:92-103 | a number outside the policy, the pinned one for fix-pr and otherwise one that this process created, reaches no forge call |
| PullRequests.Broker.CreatePullRequest | internal/broker/policy.go:507-614 | a body or mode that is refused reaches no forge call; a creation needs the confirmed or admitted head, live, and a listing without claims; the answer is the specified one; and once a broker created, calls adopt or fail |
| PullRequests.Broker.Recheck | internal/broker/policy.go:582-614 | the recheck passes exactly when the created pull request reads back under the full pinned identity at the live head and every claim listed afterwards is this one |
| PullRequests.DiscoversExactly | internal/broker/policy.go:507-547 | a call gets as far as the head's pull requests exactly when body and mode are allowed, the base is there, the work ref read shows the given commit as live head of the pinned, writable, unprotected ref, no call fails and the claims are complete |
| PullRequests.OursExactly | internal/broker/policy.go:548-571 | a sole claim is adopted exactly when it is open under the full pinned identity at the given commit with a body within the contract |
| PullRequests.ConfirmedMeansLive | internal/broker/policy.go:578-614 | a created pull request was read back under the full identity while the commit was still the live head, and all claims listed afterwards are it |
| PullRequests.CooperativeCallOpens | internal/broker/policy.go:507-614 | on a forge that answers and that nobody disturbs, the call opens the pull request |
| PullRequests.CooperativeCallAdopts | internal/broker/policy.go:548-571 | and a later call, also of a new process, adopts it |
| PullRequests.Serve | internal/broker/policy.go:507-614 | over any number of calls and restarts, with crashes after the provider created, at most one pull request of the run exists |
| Handoff.FixPrKind | cmd/courier-executor/main.go:2074-2112 | a trusted issue identity and a fix-pr assignment exclude each other |
| Handoff.ObserveRunBranch | cmd/courier-executor/main.go:2128-2169 | the scan classifies the head's pull requests as specified, fail-closed worlds first |
| Handoff.ClassifiesExactly | cmd/courier-executor/main.go:2128-2169 | what each class means for the listing alone: foreign, on another base, several open, one draft, one ready, all closed in order, or empty |
| Handoff.OpenMeansReviewable | cmd/courier-executor/main.go:2128-2169 | it reports an open one exactly when there is no foreign claim, no open one on another base, and exactly one open one that is not a draft |
| Handoff.ExactlyOneVerdict | cmd/courier-executor/main.go:3516-3726 | exactly one of pass, continue text, fail text and superseded is set, whatever the texts go on to say; a continuation is issued only with a session, a live context and budget left |
| Handoff.RenderSays | cmd/courier-executor/main.go:3516-3726 | the text that is not empty is the one of the decision that was made, so nothing falls through to success |
| Handoff.VerifyNoChangeClaim | cmd/courier-executor/main.go:2184-2217 | a no-change claim stands exactly when it is not checked or the pinned pull request is merged, closed or mergeable |
| Handoff.ClaimIsVerifiedExactly | cmd/courier-executor/main.go:2184-2217 | for a fix-pr run an accepted claim means a settled pull request exactly when the mode is spelled in lower case |
| Handoff.FoldedModeIsUnchecked | cmd/courier-executor/main.go:2189-2191 | a mode spelled otherwise is a fix-pr run to the handoff, and its claim stands against a conflicting pull request |
| Handoff.ResolveIssuePassesExactly | cmd/courier-executor/main.go:2286-2400 | a resolve-issue run passes exactly on one reviewable, published pull request whose body meets both contracts, with an intact pin |
| Handoff.FixPrPassesExactly | cmd/courier-executor/main.go:2425-2502 | a fix-pr run passes exactly on its pinned pull request, reviewable and published |
| Handoff.RepairNamesEveryDefect | cmd/courier-executor/main.go:3650-3712 | on a reviewable, published head the one continuation names exactly the body contracts that fail |
| Handoff.SupersededMeansMerged | cmd/courier-executor/main.go:2425-2502 | only a merged pinned pull request on a closed head supersedes, and only a fix-pr run |
| Handoff.FailsClosed | cmd/courier-executor/main.go:3516-3594 | an envelope fault fails on sight, a failed read only asks to verify again, and a pull request is asked for only when the listing is empty and the head published |
| Handoff.IssueDecidesExactly | cmd/courier-executor/main.go:2286-2400 | every decision of a resolve-issue run by what is listed and advertised, with the failing topic of each fail-closed world |
| Handoff.PrDecidesExactly | cmd/courier-executor/main.go:2425-2502 | every decision of a fix-pr run likewise |
| Handoff.AsksExactly | cmd/courier-executor/main.go:3516-3726 | a pull request, readiness and another look are asked for exactly in their worlds, and exactly within a live session and its budget |
| Handoff.EnvelopeExactly | cmd/courier-executor/main.go:2596-2686 | which envelope is taken for the pinned set: none, or one that decodes to a set on the issue that the run names |
| RunLoop.Supervise | cmd/courier-executor/main.go:729-1148 | the loop ends, as the specified run of turns ends, after at most (continuations + 1) * (retries + 1) children |
| RunLoop.Supervisor.Crash | cmd/courier-executor/main.go:811-906 | a crash retries, continues, fails or hands over as specified |
| RunLoop.Supervisor.Deliver | cmd/courier-executor/main.go:1008-1070 | a candidate follows the handoff verdict |
| RunLoop.Supervisor.Exit | cmd/courier-executor/main.go:908-1145 | a clean exit is judged by declaration, work state, branch and fingerprint as specified |
| RunLoop.Supervisor.Iterate | cmd/courier-executor/main.go:736-1148 | one iteration is one step of the specification |
| RunLoop.TurnSpendsOne | cmd/courier-executor/main.go:811-1145 | every further turn spends exactly one continuation, or one availability retry and no continuation |
| RunLoop.ChildrenAreBounded | cmd/courier-executor/main.go:729-1148 | no run starts more than (continuations + 1) * (retries + 1) children, although the retry budget is refilled |
| RunLoop.BoundIsReached | cmd/courier-executor/main.go:729-1148 | for every pair of budgets some run starts exactly that many |
| RunLoop.ResumesTheFirstSession | cmd/courier-executor/main.go:753-767 | every resumed child resumes the first session that was served, and every continuation is resumed |
| RunLoop.VerifyingExactly | cmd/courier-executor/main.go:908-1115 | exactly when a turn ends the run as Verifying |
| RunLoop.NoChangeExactly | cmd/courier-executor/main.go:908-992 | exactly when a turn ends the run as needing no change: a merged pinned pull request, or a declared claim that stands on an untouched workspace |
| RunLoop.NoChangeIsVerifiedExactly | cmd/courier-executor/main.go:1296-1317 | a fix-pr run ends on its own claim only over a settled pull request exactly when its mode is spelled in lower case |
| RunLoop.CrashEndsOnlyOnSpentBudget | cmd/courier-executor/main.go:811-906 | a crash ends the run only on a spent budget, which hands it over, or on cancellation, which fails it |
| RunLoop.CrashGoesOnExactly | cmd/courier-executor/main.go:811-906 | a crash is retried or continued exactly within its budget in a live run, with the state it goes on with, and otherwise handed over, or failed when cancelled |
| RunLoop.UnjudgedEndsExactly | cmd/courier-executor/main.go:736-935 | exactly when a turn ends on a stale declaration, exhausted capacity, an unresolved sync or an unreadable workspace |
| RunLoop.DeclaredEndsExactly | cmd/courier-executor/main.go:1290-1330 | how every declaration without delivered commits ends the run |
| RunLoop.DeliveredFollowsThePlan | cmd/courier-executor/main.go:1008-1070 | delivered commits follow the handoff plan, with the state of a repair |
| RunLoop.UnfinishedGoesOnExactly | cmd/courier-executor/main.go:1117-1143 | an unfinished turn with a session goes on exactly when its fingerprint is known, budget is left and the workspace is not readably the one it went on from, and with which state |
| RunLoop.SessionlessEndsExactly | cmd/courier-executor/main.go:1099-1115 | without a session it ends, as failed or by a late commit as Verifying |
| RunLoop.ChangingWorldsAreContinued | cmd/courier-executor/main.go:1117-1143 | a run whose turns leave ever other worlds starts exactly one child more than its continuation budget, and stops as looping |
| RunLoop.UncheckedVerifyingIsReachable | cmd/courier-executor/main.go:1105-1115 | a run can end as Verifying without a passed check |
| RunLoop.VerifyingIsReviewable | cmd/courier-executor/main.go:908-1115 | with agreeing branch reads a resolve-issue run ends as Verifying only on a reviewable, published pull request that meets both contracts |
| RunLoop.ExhaustionIsFinal | cmd/courier-executor/main.go:796-809 | with the flags that the session tap supplies, after an exhaustion signal another turn starts only if the context was cancelled by then |
| RunLoop.ExhaustionWasSeen | cmd/courier-executor/main.go:796-809 | a capacity ending means that the last turn itself raised the signal |
| RunLoop.TapBacksTheSignal | cmd/courier-executor/main.go:783-804 | over a whole run of one tap, a turn that raises the signal has its evidence on record |
| RunLoop.NoWorldIsRetried | cmd/courier-executor/main.go:1117-1143 | two consecutive workspace continuations never start from the same readable world, whatever lies in between |
| SessionTap.Transport.constructor | cmd/courier-executor/sessiontap.go:73-75 | a tap starts empty |
| SessionTap.Transport.BeginAttempt | cmd/courier-executor/sessiontap.go:99-106 | a new generation starts without a partial line |
| SessionTap.Transport.WriteBytes | cmd/courier-executor/sessiontap.go:86-95 | a write is passed through and consumed exactly when its generation is current, and the buffer stays bounded and free of newlines for every stream |
| SessionTap.Transport.Consume | cmd/courier-executor/sessiontap.go:117-135 | consuming scans the finished lines in order and keeps or drops the unfinished one |
| SessionTap.Transport.ScanPending | cmd/courier-executor/sessiontap.go:119-126 | the buffer loop scans exactly the finished lines |
| SessionTap.Transport.Scan | cmd/courier-executor/sessiontap.go:155-185 | one line counts, keeps the first session, records text and exhaustion, and calls the stop function |
| SessionTap.Transport.FlushAttempt | cmd/courier-executor/sessiontap.go:140-149 | the tail is scanned and the generation ends |
| SessionTap.ChunkingDoesNotMatter | cmd/courier-executor/sessiontap.go:117-149 | with lines within the bound, every way of cutting the stream gives the state of reading it whole |
| SessionTap.ChunkingNeverMattersExactly | cmd/courier-executor/sessiontap.go:117-149 | and only then: for every other stream some cut and some events give another state |
| SessionTap.AllBytesPassInOrder | cmd/courier-executor/sessiontap.go:86-95 | over all interleavings of writers every byte is passed through in order |
| SessionTap.StaleWritesAreUnseen | cmd/courier-executor/sessiontap.go:86-149 | the tap ends as if writes of other generations had not happened |
| SessionTap.OnlyTheOwnAttemptIsStopped | cmd/courier-executor/sessiontap.go:86-185 | a stop function is called only by bytes of its own attempt, and a called one leaves recorded evidence |
| SessionTap.CapturesTheFirstSession | cmd/courier-executor/sessiontap.go:170-175 | the first session ever served is kept, and an attempt counts as served exactly when one of its lines names a session |
| SessionTap.KeepsTheLastText | cmd/courier-executor/sessiontap.go:176-178 | the last text part is kept, cut to the limit, across turns without text |
| SessionTap.EveryExhaustionStops | cmd/courier-executor/sessiontap.go:155-185 | every exhausted line calls the stop function that is set, and no other line does |
| SessionTap.AttemptIsRead | cmd/courier-executor/sessiontap.go:86-185 | an attempt within the line bound that begins, writes and is flushed leaves the tap as a reader of its whole output, passed through, however it was cut |
| SessionTap.ConfirmedIsTheLastLine | cmd/courier-executor/sessiontap.go:155-197 | an exhaustion is confirmed exactly when the last scanned line says so |
| Reaper.ChildReaper.Pass | cmd/courier-executor/reaper.go:156-187 | one pass collects exactly the listed collectable children and counts them |
| Reaper.ChildReaper.Drain | cmd/courier-executor/reaper.go:148-192 | while the kernel is quiet the drain ends for every sequence of listings, each repeated pass shrinks what is left, only collectable children go, and a complete last listing leaves none |
| ReaperProtocol.ExecutionKeepsInv | cmd/courier-executor/reaper.go:148-259 | every interleaving of runs, drains, other commands and the kernel keeps the invariant |
| ReaperProtocol.NoStatusIsStolen | cmd/courier-executor/reaper.go:148-259 | unless a leading child gets a pid that is taken and not unregistered, no run ever loses its status, every waiting run still finds its child, and only orphans in registered groups are collected |
| ReaperProtocol.ProgressIsBounded | cmd/courier-executor/reaper.go:148-192 | in every interleaving the passes are bounded by the drains started and the children collected, and those by the orphans and adoptions |
| ReaperProtocol.DrainIsBounded | cmd/courier-executor/reaper.go:148-192 | a drain makes at most one pass more than it collects children, and no more children are ever collected than orphans were adopted |
| ReaperProtocol.StatusIsLostExactly | cmd/courier-executor/reaper.go:238-259 | from every state of the invariant and for every start: some continuation without a further such start loses a status exactly when the child leads its group and its pid is one whose status another run has taken and not unregistered |
| ReaperProtocol.ReissueIsReachable | cmd/courier-executor/reaper.go:238-259 | for every pid and every two runs an execution without such a start reaches a state in which one is possible |
| ReaperProtocol.RunCompletes | cmd/courier-executor/reaper.go:238-259 | from every state with a free gate an undisturbed run goes through lock, start, registration, wait and unregistration: it cannot take a status while the child lives, takes it once it died, and leaves only a leader's group watched; a failed start gives the gate back |
| ReaperProtocol.DrainCollects | cmd/courier-executor/reaper.go:148-187 | from every such state an undisturbed drain collects a dead, unsupervised child of a watched group |
| ReaperProtocol.DrainLooksAgain | cmd/courier-executor/reaper.go:188-191 | a pass that collected something lists again, and any other gives the gate back |
| JsonScan.LastJsonObject | cmd/courier-executor/rebaseassist.go:185-220 | the scan returns the last complete top-level object under string-aware lexing, or none when there is none |
| JsonScan.ValueLeads | cmd/courier-executor/rebaseassist.go:182-220 | reading any JSON text returns to the depth where it began and never drops below it |
| JsonScan.ObjectIsSpan | cmd/courier-executor/rebaseassist.go:182-220 | an object's text is a complete span wherever the reader is outside |
| JsonScan.ExtractsTheObject | cmd/courier-executor/rebaseassist.go:182-220 | before any text without an opening brace, exactly the object is returned, whatever its spacing, escapes and nesting, if and only if the text before it leaves the reader outside |
| JsonScan.ExtractsFromProse | cmd/courier-executor/rebaseassist.go:182-220 | in particular after prose without quotes and opening braces |
| BootstrapConfig.StoredAsIsExactly | internal/bootstrap/config.go:140-146 | a spec that parses is stored as it is exactly when its transport is not mere white space, and is rejected by the server otherwise |
| BootstrapConfig.TransportIsAdmittedExactly | internal/bootstrap/config.go:140-146 | a normalised transport is in the schema's enumeration exactly when it is left out or names something |
| BootstrapConfig.BlankTransportIsNeverStored | internal/bootstrap/config.go:140-146 | every spec that parses still parses with a transport of blanks, and the server never stores it |
| BootstrapConfig.NormalizeEntries | internal/bootstrap/config.go:117-131 | the loop over roles, in any order, trims the names and accepts the values, and refuses exactly a map with an empty name, a refused value or two names that trim to one; the loop over context roles at lines 236-256 is the same |
| BootstrapConfig.NamingIsAdmitted | internal/bootstrap/config.go:109-131 | a capacity group that the parser's bound in bytes admits is within the schema's bound in characters |
| BootstrapConfig.LabelsExactly | internal/bootstrap/config.go:96-98 | a label is 1 to 63 lower-case letters, digits and hyphens with no hyphen at either end |
| BootstrapConfig.EntriesExactly | internal/bootstrap/config.go:117-131 | a map of names parses exactly when no trimmed name is empty, every value is accepted and no two names trim to one, and it then holds exactly the accepted values under the trimmed names |
| BootstrapConfig.ModelsExactly | internal/bootstrap/config.go:117-131 | roles parse exactly when no role and no model is blank and no two roles trim to one; each trimmed role keeps its trimmed model |
| BootstrapConfig.BudgetsExactly | internal/bootstrap/config.go:233-255 | context roles parse exactly when no role is blank or doubled and every budget is within its bounds; each budget is kept as it is, a zero percentage too |
| BootstrapConfig.NamingExactly | internal/bootstrap/config.go:109-131 | image, roles and capacity group parse exactly when there is a role, the roles parse and the trimmed group is at most 253 bytes |
| BootstrapConfig.ContextExactly | internal/bootstrap/config.go:224-258 | a context policy parses exactly when its percentage is left out or a percentage, its reservation is not negative and its roles parse; 75 stands for a percentage that is left out |
| BootstrapConfig.RepairExactly | internal/bootstrap/config.go:194-216 | a repair policy parses exactly with at most five attempts, a window left out or of 60 to 21600 seconds, and no empty check name; 1800 stands for a window that is left out |
| BootstrapConfig.TransportsExactly | internal/bootstrap/config.go:140-146 | a transport parses exactly when it is blank or names a wire format in any case, and gives itself or the format |
| BootstrapConfig.SkillsExactly | internal/bootstrap/config.go:157-180 | skills parse exactly when they are at most 16 distinct labels after trimming, and keep their order |
| BootstrapConfig.SpecsExactly | internal/bootstrap/config.go:104-180 | a spec parses exactly when each part does and its concurrency is not negative; a zero concurrency becomes one |
| BootstrapConfig.ProfilesExactly | internal/bootstrap/config.go:91-180 | an entry parses exactly when its trimmed name is a label and its spec parses |
| BootstrapConfig.AdmitsExactly | api/v1alpha1/laneprofile_types.go:59-226 | the server stores a spec exactly when, field by field, it is within the schema once the defaults are filled in, and stores it with those defaults |
| BootstrapConfig.ParseWith | internal/bootstrap/config.go:82-181 | the loop accepts exactly documents whose entries normalise to distinct names |
| BootstrapConfig.Parse | internal/bootstrap/config.go:82-181 | parsed profiles have distinct names, and each spec is stored as it is exactly when its transport is not mere white space |
| Bootstrap.ReportKeepsConsistent | internal/bootstrap/reconciler.go:228-263 | a report that follows the bookkeeping keeps blocked and resolved alternating for every name |
| Bootstrap.Reconciler.LogCollision | internal/bootstrap/reconciler.go:230-243 | a collision is reported once until it is resolved |
| Bootstrap.Reconciler.SettleCollisions | internal/bootstrap/reconciler.go:249-263 | exactly the evaluated colliding names are resolved and reported |
| Bootstrap.Reconciler.Ensure | internal/bootstrap/reconciler.go:160-202 | with others changing the cluster before the read and before the write: a collision exactly on a lane that is somebody else's, another error exactly on a failed read or a needed write that failed, was rejected or met a missing lane, and exactly the specified write |
| Bootstrap.Reconciler.Create | internal/bootstrap/reconciler.go:164-181 | a create lands exactly when it is delivered, admitted and the name is free; a taken name is absorbed |
| Bootstrap.Reconciler.Update | internal/bootstrap/reconciler.go:190-200 | an update lands exactly when it is delivered, admitted and the lane is as it was read; a changed lane is absorbed |
| Bootstrap.ForeignIsNeverWritten | internal/bootstrap/reconciler.go:184-200 | whatever others do and when, a step writes only its own name and never a lane that is somebody else's at the read or at the write |
| Bootstrap.FineMeansEnsured | internal/bootstrap/reconciler.go:160-202 | no trouble means that a write that was asked for was answered and the lane is there; unless others intervened between read and write, the lane is ours with the desired spec or what the server makes of it |
| Bootstrap.TroubleHasACause | internal/bootstrap/reconciler.go:160-202 | a collision asks for no write and is a lane that is somebody else's; any other error is a failed read or a write that failed, lost its answer, was rejected or found the lane removed |
| Bootstrap.OnlyTheWriteChanges | internal/bootstrap/reconciler.go:160-202 | what others left changes at most by the delivered and admitted write: a lane of ours as the server stores it, new or one version on |
| Bootstrap.Reconciler.EnsureNext | internal/bootstrap/reconciler.go:143-151 | one profile of a pass: an error is collected, and then the name does not count as evaluated |
| Bootstrap.Reconciler.EnsureAll | internal/bootstrap/reconciler.go:143-151 | the failed names are exactly the collisions and the other errors, and the writes requested are exactly the unsettled profiles read |
| Bootstrap.Reconciler.ReconcileAll | internal/bootstrap/reconciler.go:120-154 | after a pass the colliding names are exactly this pass's collisions and the formerly colliding ones that failed otherwise, and the failed names exactly the collisions and the other errors; a provider failure changes nothing |
| Bootstrap.Reconciler.Run | internal/bootstrap/reconciler.go:65-91 | over any life, with others changing the cluster at any moment, the reports of every name alternate, and the colliding names and the cluster are the specified ones |
| Bootstrap.LifeWritesOnlyOwn | internal/bootstrap/reconciler.go:160-202 | in every pass of every life a lane that is somebody else's when it is met is left as it is |
| Bootstrap.BlockedAgain | internal/bootstrap/reconciler.go:228-263 | a lane that others take, give up and take again is reported blocked, resolved and blocked |
| Bootstrap.QuietPassSettlesExactly | internal/bootstrap/reconciler.go:120-202 | an undisturbed pass settles exactly the profiles that were settled or that the server, whatever it stores, stores as they are |
| Bootstrap.ParsedProfilesSettleExactly | internal/bootstrap/config.go:82-181 | the profiles of a parsed document, under the schema, settle in an undisturbed pass exactly when they were settled or their declared transport is not mere white space |
| Bootstrap.Reconciler.PassTwice | internal/bootstrap/reconciler.go:120-202 | a second undisturbed pass requests no write exactly when the first found every profile settled or storable |

## Left out

- Updating a fix-pr pull request and snapshots for the control process: shallow repeats of the checks that publication already makes.
- The closing-keyword and evidence-line patterns: they are parameters of the theorems, which hold for any pattern.
- Policy.SameFoldSameIdentity: folds ASCII letters only, because Unicode case folding is a table that the model does not hold; so do the other members that compare names.
- Overflow when an issue number is parsed from text.
- HTTP, TLS, token review, Kubernetes clients and git subprocesses: their answers are parameters, ancestry is an oracle and a push may do anything to the remote.
- The wording of messages beyond the word they open with, events, telemetry, outcome comments, evidence capture and the fitting of the termination line: text and best-effort effects.
- Real time: backoff delays are skipped, timestamps are instants with a separate representation.
- That a child cannot start under a cancelled context: the model lets such a turn do anything, so its theorems hold for more runs than the source has.
- Short writes and write errors of the executor's output: the transport's sink takes every byte.
- The parsing of JSON events and the classification of exhaustion in one line: the reader of a line is a parameter.
- Framing and resources of lane profiles: the parser hands them on and the model's server keeps them, so they are one field that stays as it is.
- Pods, topology, the rebase engine and the controller: not modelled.
