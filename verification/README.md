# Verified model of the Meta Ads write protocol and sync

This project models the parts of the system where a mistake costs money or corrupts history, and
proves what they promise.

- **Creating ads.** `MetaCreate` is the claim-before-create protocol as a state machine: any number of
  callers, one SQL statement or provider call at a time, each statement able to fail or to lose its
  answer, each caller able to stop for good anywhere. `MetaCooldown` adds the 45-minute hold a throttled
  create leaves on its account, `MetaHolds` says when such a hold begins and is over, and `MetaDiagnostics`
  where the diagnostics it depends on come from.
  `MetaCreateFlow` is the same protocol as the code runs it, over tables changed in place.
- **One Instagram identity per launch.** `IdentityLease` is the shared row with its two-minute lease,
  fencing token, ten-minute cache and pin; `IdentityFlow` is the retry loop over it, with the statements
  of other callers between its own.
- **Reading ads.** `CanonicalJson` is the printer whose text decides whether a version is minted, and
  `JsonReading` reads it back. `LeanInventory` is the cheap snapshot that stands in for the heavy read;
  `LeanMerged` says what is in it, read by read. `ChildRefresh` plans and applies the status refresh below
  changed parents; `RefreshPlans` and `RefreshRuns` say what is planned and done, answer by answer. `ScanCheckpoint` is the cursor arithmetic over whole
  runs of scans. `Narrowing` is the date-window ladder.
- **Deriving parent rows.** `RollupSums`, `RollupActions`, `RollupResults` and `HotRollup` are the
  accumulators and the rollup of one day of ad rows; `RollupOrder` is conservation and order;
  `RollupNumbers` and `RollupEntries` tell the derived rows by the fields of the ad rows;
  `RollupLevels`, `RollupActionLevels` and `RollupTwice` roll the derived ad sets up again.
- **The desktop stream.** `StreamReader` reads NDJSON frames from chunks; `StreamChunks` says when the
  cuts between them matter; `StreamedConfirm` settles a confirmation on its first receipt;
  `StreamFailures` says why a stream fails and what is answered then.
- **Labelling source text.** `LexicalStates` labels each offset as code, string, template or comment.

A protocol is a function `Step` over a state, run by `Runs`; `Run(events)` is the state after any sequence of events, so
a statement about `Run(events)` is a statement about every interleaving. Code that updates objects is a
class or a method with loops, proved against a function of its inputs; the lemmas are about that function, and
for each of these functions some state its result by the input's own fields, with the constants written out.

## Findings

Two promises do not hold on every input, and one holds only because of where errors are raised. Each is
shown with its input and its exact condition.

- **Rolling the derived ad sets up again gives the campaign rows**
  (packages/connectors/src/meta-ads-hot-rollup.ts:224-233). *Fails on* an action element
  `{value: 3, "7d_click": null}` with no 1-day view: the null keeps `value` from being counted as clicks the
  first time, but the derived element has no click window, so 3 is counted the second time
  (`RollupActionLevels.NullClickExample`). *Holds exactly when*, for each action type of the campaign, no ad
  set derives a `value` without a headline window, or the campaign has a click window anyway and those values
  add up to zero (`RollupActionLevels.TablesAgreeIff`, `RollupTwice.TwoLevels`). Every other number agrees,
  spend and results for inputs that are multiples of a millionth.
- **The stream reader does not depend on chunking** (apps/cli/src/desktop-app-client.ts:1432-1444 and
  1515-1528). The buffer limit counts a line's CR and the line limit does not, and a blank line is called blank
  before it is measured. *Fails on* a frame of exactly 1 MiB ended by CR LF, when a chunk ends between the two
  (`StreamChunks.CutBeforeLfMatters`), and on a blank line of more than 1 MiB, when a chunk ends inside it
  (`StreamChunks.LongBlankLine`). *Holds exactly when* every line that is reached and exceeds the limit with
  its CR is not blank and exceeds it without its CR, or is a terminal frame followed by something else too long
  (`StreamChunks.CutsAgreeIff`).
- **The hold of a throttled create is durable before its claim is released**
  (packages/analytical-engine/src/index.ts:2412-2444 against
  packages/analytical-engine/src/meta-local-publishing.ts:54-59). Recording a hold counts the error code
  `provider_rate_limited` in any phase; the audit row that stands in for a lost cooldown write counts it only
  before dispatch. The two differ on a refusal after dispatch with that code and no other sign of throttling
  (`MetaCooldown.UnprotectedAre`), and there the hold would be lost (`MetaCooldown.HoldGap`); it is kept in every
  run exactly for the others (`MetaCooldown.HoldKeptIffProtected`). *No create raises such an error today*: only
  the publishing reads throw that code (packages/connectors/src/meta-publishing.ts:93-97 and 487-491), and they
  run before anything is dispatched. So the promise holds for every diagnostic a create can raise
  (`MetaDiagnostics.ReachableHoldIsKept`), and `MetaDiagnostics.LatentGapIff` says what a future writer must
  not do.

The overlap of the entity scans has an exact limit too: no update is lost if and only if updates become
visible within 300 001 ms (`ScanCheckpoint.LagSafeIff`).

## Assumptions

- Each SQL statement is atomic, with the `where` guards of the code; all callers read one clock that
  never goes back. Claim ids and lease tokens are unique.
- The provider's diagnostic is honest: one that permits a release comes only when nothing was created.
- A connector call throws no publishing error, and the publishing reads of a create come before its
  connector call (packages/analytical-engine/src/index.ts:2749-2783 and 2889-2897).
- sha256 has no collisions between the bindings compared, so bindings and intents are compared as values.
- Keys are compared by a strict total order.

## Model

| member | source | states |
|---|---|---|
| `MetaCreate.StepKeepsInv` | packages/analytical-engine/src/index.ts:1658-1751 | every statement of every caller, run, lost or unanswered, keeps: a claimant's row is its own and unresolved until it backfills, a row with an id stands for a create, creates lie under their own claims, a releasable diagnostic means nothing was created |
| `MetaCreate.AtMostOneCreate` | packages/analytical-engine/src/index.ts:2287-2454 | in every interleaving with crashes anywhere, two creates for one workspace, source and clientToken are the same create |
| `MetaCreate.RepliesAgree` | packages/analytical-engine/src/index.ts:1690-1739 | any two ok replies for one key, deduped or not, carry the same id, the provider created that id, and local callers that got it named the same entity, actor and intent |
| `MetaCreate.OnlyOwnUnresolvedRowGoes` | packages/analytical-engine/src/index.ts:1746-1751 | a row disappears only by a release of its own claimant, unresolved, after a failure that permits release and created nothing |
| `MetaCreate.StepKeepsSettled` | packages/analytical-engine/src/index.ts:1728-1751 | a row that holds an id, or whose claimant has stopped, is neither deleted nor changed by any step |
| `MetaCreate.SettledRowStands` | packages/analytical-engine/src/index.ts:1728-1751 | so in every continuation: the id stands, and a crashed winner's key can never be won again |
| `MetaCreate.ForeignCallerGetsNothing` | packages/analytical-engine/src/index.ts:1708-1724 | a local caller whose entity, actor or intent is not the settled row's never claims, sends or receives the id, in any continuation |
| `MetaCreate.ProvenFailureFreesKey` | packages/analytical-engine/src/index.ts:2376-2383 | in every run, after a failure that proves nothing was created, recording the hold and releasing leave the key to the next caller |
| `MetaCreate.InsertWinsIff` | packages/analytical-engine/src/index.ts:1670-1690 | a claim wins if and only if the key has no row |
| `MetaCooldown.StepKeepsHold` | packages/analytical-engine/src/index.ts:2350-2449 | every step keeps: a protected throttled claim still fences its key or its hold is stored, a caller that believes a hold is stored is right, and a local caller past its check has waited out every protected failure of its key and account |
| `MetaCooldown.NoPostDuringHold` | packages/analytical-engine/src/index.ts:2350-2449 | after a protected failure, whoever raises it, no later local create of that key on that account is sent within 45 minutes, in any run |
| `MetaCooldown.ReleasedOnlyBehindHold` | packages/analytical-engine/src/index.ts:2368-2383 | after a protected failure the throttled claim holds its row or a hold starting no earlier is stored, at every moment |
| `MetaCooldown.StepIsLater` | packages/analytical-engine/src/meta-local-publishing.ts:60-64 | a stored hold never moves earlier and never disappears |
| `MetaCooldown.StoredHoldStopsTheAccount` | packages/analytical-engine/src/meta-local-publishing.ts:13-38 | once a hold is stored, every later check of a local create on the account, under any key, refuses until it ends |
| `MetaCooldown.HoldGap` | packages/analytical-engine/src/index.ts:2412-2444 | for an unprotected failure, were one raised, there is a run in which a second create of the key is sent at the same instant |
| `MetaCooldown.UnprotectedAre` | packages/analytical-engine/src/meta-local-publishing.ts:45-59 | of the failures worth a hold, the unprotected ones are exactly the refusals after dispatch coded provider_rate_limited with no other sign of throttling |
| `MetaCooldown.HoldKeptIffProtected` | packages/analytical-engine/src/index.ts:2356-2449 | the hold of a failure is honoured in every run if and only if the failure is protected |
| `MetaHolds.HeldIffHoldRuns` | packages/analytical-engine/src/meta-local-publishing.ts:13-65 | in every run a hold is in force if and only if a cooldown was recorded or a counted failed audit written for the account itself less than 2 700 000 ms before |
| `MetaHolds.RefusedIffHoldRuns` | packages/analytical-engine/src/index.ts:2350-2351 | in every run a winner whose lookups did not break is refused if and only if it is local and such a hold runs; otherwise it goes on to the write |
| `MetaHolds.StoredFrom` | packages/analytical-engine/src/meta-local-publishing.ts:60-64 | a stored cooldown ends exactly 2 700 000 ms after some statement that recorded one |
| `MetaDiagnostics.ConnectorRaises` | packages/connectors/src/meta-write-diagnostic.ts:87-105 | a connector's failure is told by its own diagnostic, else by what was remembered since the last dispatch; otherwise all that is known is whether anything was dispatched |
| `MetaDiagnostics.ThrottledReadSendsNothing` | packages/connectors/src/meta-write-diagnostic.ts:87-105 | a rate-limited publishing error a create can raise is diagnosed as a refusal with nothing dispatched |
| `MetaDiagnostics.ReachableIsProtected` | packages/connectors/src/meta-write-diagnostic.ts:97-105 | every failure worth a hold that a create can raise is protected |
| `MetaDiagnostics.ReachableHoldIsKept` | packages/analytical-engine/src/index.ts:2350-2449 | so its hold is honoured in every run, with no exception |
| `MetaDiagnostics.NoPostDuringAnyHold` | packages/analytical-engine/src/index.ts:2350-2449 | after any local create is throttled, no later local create of that key on that account is sent within 45 minutes, in any run of creates as they are written |
| `MetaDiagnostics.AnyReleaseIsBehindHold` | packages/analytical-engine/src/index.ts:2368-2383 | at every moment of such a run a throttled claim holds its row or its hold is stored |
| `MetaDiagnostics.LatentGapIff` | packages/connectors/src/meta-write-diagnostic.ts:97-105 | a throttled publishing read is unprotected if and only if a connector has before it remembered a refusal with no sign of throttling |
| `MetaCreateFlow.Tables.ClaimDedup` | packages/analytical-engine/src/index.ts:1658-1724 | wins exactly when the key has no row, and then adds one pending row; otherwise changes no row and says whether the row is this operation's with an id, this operation's without one, or another's |
| `MetaCreateFlow.Tables.ResolveDedup` | packages/analytical-engine/src/index.ts:1728-1740 | the caller's own row gets the id and nothing else changes |
| `MetaCreateFlow.Tables.DeleteUnresolved` | packages/analytical-engine/src/index.ts:1746-1751 | rows of other keys or claims and rows with an id stay as they are |
| `MetaCreateFlow.Tables.AssertCooldown` | packages/analytical-engine/src/meta-local-publishing.ts:13-38 | refuses exactly when a cooldown row of the account ends later than now or a counted failed audit of it is less than 2 700 000 ms old |
| `MetaCreateFlow.Tables.RecordCooldown` | packages/analytical-engine/src/meta-local-publishing.ts:39-65 | the account is held until the later of its old hold and 2 700 000 ms from now, no other account changes, and failure to store is reported |
| `MetaCreateFlow.Tables.AuditFailed` | packages/analytical-engine/src/index.ts:2405-2438 | a stored failed audit of a failure the check counts holds the account from now |
| `MetaCreateFlow.Tables.Recover` | packages/analytical-engine/src/index.ts:2350-2450 | the failure path as it runs is the four steps of the protocol, and gives the row up exactly when release is permitted and the hold, or the audit for it, is stored |
| `MetaCreateFlow.Tables.Backfill` | packages/analytical-engine/src/index.ts:2452-2481 | the row holds the id unless the backfill did not run, and the id is returned exactly when the backfill and the success audit both answered |
| `MetaCreateFlow.Tables.RunMetaCreate` | packages/analytical-engine/src/index.ts:2290-2481 | from the claim on, one call is a run of the protocol; its answer is fixed by the key's row, the hold on the account, the provider and the statements that failed, and fixes what became of the row |
| `MetaCreateFlow.WinnersReplyIs` | packages/analytical-engine/src/index.ts:2350-2481 | a winner is stopped only by a broken lookup or, if local, a running hold; otherwise the answer of the provider, the backfill and the success log fix its reply |
| `MetaCreateFlow.LosersReplyIs` | packages/analytical-engine/src/index.ts:1700-1724 | a taken key answers conflict to another actor, entity or intent, uncertain when its row has no id, and that id otherwise; no row changes |
| `MetaCreateFlow.ReleasesIs` | packages/analytical-engine/src/index.ts:2376-2383 | when every statement runs, the row is given up exactly after a failure before dispatch or a refusal or throttle the provider answered |
| `MetaCreateFlow.ReleasesBehindAudit` | packages/analytical-engine/src/index.ts:2368-2449 | when the cooldown write of a throttle fails, the row is given up exactly behind a stored audit |
| `IdentityLease.StepKeepsInv` | packages/analytical-engine/src/meta-local-publishing.ts:213-275 | every step keeps: a current token's holder knows the pin, a verified row has an identity and no live claim and was answered by the provider then, replies of the present epoch agree with the row |
| `IdentityLease.ProjectIff` | packages/analytical-engine/src/meta-local-publishing.ts:179-212 | projection succeeds exactly on the stored form of a well-formed identity of this page that is the one the caller named, if it named one |
| `IdentityLease.SameEpochSameId` | packages/analytical-engine/src/meta-local-publishing.ts:213-275 | two callers of one operation that return within one unbroken binding return the same Instagram id |
| `IdentityLease.RepliesAreFresh` | packages/analytical-engine/src/meta-local-publishing.ts:213-219 | every returned identity was named by the provider for the same binding less than ten minutes before, is well formed and is the one expected |
| `IdentityLease.VerifiedRowIsSettled` | packages/analytical-engine/src/meta-local-publishing.ts:221-232 | a row with verified_at has an identity, no token and no lease |
| `IdentityLease.EpochIsBinding` | packages/analytical-engine/src/meta-local-publishing.ts:224-228 | the pin can be lost only by a claim that changes the binding, and every binding change starts a new epoch |
| `IdentityLease.PinStands` | packages/analytical-engine/src/meta-local-publishing.ts:224-228 | over every continuation a pinned id survives failed attempts, expiries and retries until the binding changes |
| `IdentityLease.OvertakenWritesNothing` | packages/analytical-engine/src/meta-local-publishing.ts:255-272 | a holder whose token is no longer current changes no row and returns nothing |
| `IdentityLease.SavesIffCurrent` | packages/analytical-engine/src/meta-local-publishing.ts:255-264 | in every run a save takes effect exactly when the caller's token is current; the identity clause of its guard never refuses |
| `IdentityLease.LostSaveStands` | packages/analytical-engine/src/meta-local-publishing.ts:255-274 | a save whose answer is lost settles the row all the same, and the release of the caller that throws changes nothing |
| `IdentityLease.LeaseExcludes` | packages/analytical-engine/src/meta-local-publishing.ts:221-232 | until the lease expires the row stays as its holder claimed it, whatever other callers do and however stale their clock readings |
| `IdentityLease.ProjectIffFits` | packages/analytical-engine/src/meta-local-publishing.ts:179-212 | a projection gives an identity if and only if the raw page, kind and id are its own, of one of the four kinds, with 1 to 32 digits, and as expected |
| `IdentityLease.LookupIs` | packages/analytical-engine/src/meta-local-publishing.ts:215-219 | a lookup answers if and only if the row was verified for this binding in the 600 000 ms up to the reading |
| `IdentityLease.ClaimTakesIff` | packages/analytical-engine/src/meta-local-publishing.ts:221-239 | a caller at its claim takes the lease, for 120 000 ms and under a new token, if and only if there is no row, or no lease ends after its reading and nothing fresh is verified for its binding; otherwise it tries again, fifty times in all |
| `IdentityFlow.Store.Lookup` | packages/analytical-engine/src/meta-local-publishing.ts:215-219 | answers from the row exactly when it is verified for this binding within ten minutes of the reading |
| `IdentityFlow.Store.ClaimRow` | packages/analytical-engine/src/meta-local-publishing.ts:220-235 | takes the lease exactly when none ends after the reading and the row is not fresh for this binding; otherwise nothing changes |
| `IdentityFlow.Store.SaveRow` | packages/analytical-engine/src/meta-local-publishing.ts:255-265 | takes effect exactly when it runs and the token is current, changing only identity, time and lease; returns exactly when its answer also comes back |
| `IdentityFlow.Store.HoldLease` | packages/analytical-engine/src/meta-local-publishing.ts:236-274 | a holder returns the provider's identity exactly when it fits the request and the pin, nobody has overtaken the lease by the save and the save answers; otherwise it throws and, if its release ran, no longer holds the lease |
| `IdentityFlow.Store.Resolve` | packages/analytical-engine/src/meta-local-publishing.ts:213-279 | fifty attempts, with any statements of other callers between its own, are a run of the protocol; which attempt answers, and how, is fixed by the rows it meets; an identity returned is the row's pin under its present epoch, and a caller alone with an ended lease and a confirming provider gets its identity |
| `IdentityFlow.AloneIsResolved` | packages/analytical-engine/src/meta-local-publishing.ts:213-265 | a caller alone, with a row whose lease has ended and a provider that names a fitting identity, is answered at its first attempt |
| `IdentityFlow.CachedIsResolved` | packages/analytical-engine/src/meta-local-publishing.ts:215-219 | one that finds its binding verified lately is answered from the row |
| `CanonicalJson.CanonicalTextIsMeaning` | packages/connectors/src/meta-entity-fingerprint.ts:58-68 | two values print alike if and only if they are equal up to key order, dropped undefined members and undefined read as null |
| `CanonicalJson.MeaningFixesText` | packages/connectors/src/meta-entity-fingerprint.ts:61-66 | key order, undefined members and undefined scalars never change the text |
| `CanonicalJson.TextUnambiguous` | packages/connectors/src/meta-entity-fingerprint.ts:58-68 | a printed value followed by a delimiter can be read in one way only |
| `CanonicalJson.OmitIsStrip` | packages/connectors/src/meta-entity-fingerprint.ts:42-56 | printing with omitted keys is printing the value with those keys removed at every depth |
| `CanonicalJson.VersionMintedIffMeaningChanged` | packages/connectors/src/meta-entity-fingerprint.ts:42-56 | the hashed text changes if and only if the metadata, rendered media urls aside, means something else |
| `JsonReading.ReadsTree` | packages/connectors/src/meta-entity-fingerprint.ts:58-68 | reading a printed tree by the grammar of RFC 8259 gives the tree and leaves what follows it |
| `JsonReading.ReadingIsMeaning` | packages/connectors/src/meta-entity-fingerprint.ts:58-68 | the text is the JSON of its value: reading all of it gives what the value means |
| `JsonReading.MintedIffMeaningMoved` | packages/connectors/src/meta-entity-fingerprint.ts:42-56 | a version is minted if and only if the meaning changes somewhere outside thumbnail_url, image_url and picture, at any depth |
| `LeanInventory.MergeLeanAds` | packages/connectors/src/meta-lean-inventory.ts:195-241 | the loop computes the merge node by node and stops at the first ad that needs the heavy read, with its reason and id |
| `LeanInventory.MergeAd` | packages/connectors/src/meta-lean-inventory.ts:219-239 | one ad is merged on its base, delta before storage, or needs the heavy read as unknown, with another creative or with other fields, in that order |
| `LeanInventory.MergedFields` | packages/connectors/src/meta-lean-inventory.ts:217-239 | a merged node has the lean read's identity, parentage and status, the one resolved expansion of its creative, and the base's other fields |
| `LeanInventory.ProjectionIsLeanRead` | packages/connectors/src/meta-lean-inventory.ts:217-240 | projecting the merged snapshot to the lean fields gives back the lean read in order: the same printed id, name, adset_id and campaign_id, the same creative id and status |
| `LeanInventory.MembershipIsLeanRead` | packages/connectors/src/meta-lean-inventory.ts:216-240 | a merged snapshot has exactly the ids the lean read returned |
| `LeanInventory.SharedCreativesAgree` | packages/connectors/src/meta-lean-inventory.ts:202-231 | nodes that share a creative the delta or storage knows carry the same expansion |
| `LeanInventory.MergeIsFixpoint` | packages/connectors/src/meta-lean-inventory.ts:195-241 | merging the output again with no delta and the same creative table changes nothing |
| `LeanInventory.TableAsStored` | packages/connectors/src/meta-lean-inventory.ts:202-213 | storing the delta's creatives after the others gives the same creative table |
| `LeanInventory.MergeRefinesHeavy` | packages/connectors/src/meta-lean-inventory.ts:195-241 | when storage and delta explain the heavy read, the merge is the heavy nodes of the lean read's ids in lean order, all of the heavy read exactly when the two reads agree on ids, and it asks for the heavy read exactly when some ad is in neither source |
| `LeanInventory.SnapshotRefinesHeavyRead` | packages/connectors/src/meta-lean-inventory.ts:247-274 | on every branch the snapshot stands for the heavy read, with its ids exactly when the lean read agrees on them, and it is lean exactly when the plan is, storage is not empty and every ad is known |
| `LeanMerged.MergedNodeIs` | packages/connectors/src/meta-lean-inventory.ts:195-241 | a merged node prints the lean read's id, name, adset_id and campaign_id, has its status, and its creative is that of the last delta node with the creative's id, else the last stored one with it, else the base's own; every other field is that of the last delta or else the last stored node of its id |
| `LeanMerged.MergedIff` | packages/connectors/src/meta-lean-inventory.ts:216-227 | the merge succeeds if and only if every lean ad with an id has such a base with its creative and the same printed id, name, adset_id and campaign_id |
| `LeanMerged.NeedsFullIs` | packages/connectors/src/meta-lean-inventory.ts:219-226 | a fallback names an ad of the lean read that is in neither source, or has another creative, or prints one of the four fields differently, and says which |
| `LeanMerged.IdentifiedInOrder` | packages/connectors/src/meta-lean-inventory.ts:216-218 | the ads merged are all those with an id, in the order read |
| `LeanMerged.FallbackTells` | packages/connectors/src/meta-lean-inventory.ts:247-274 | the fallback reported is the plan, an empty storage or the merge, and the snapshot is lean if and only if the plan is and every lean ad matches its base |
| `ChildRefresh.PlanRefresh` | packages/connectors/src/meta-child-status-refresh.ts:92-146 | the loops compute the plan: changed ids sorted and distinct, reads in order, estimates summed |
| `ChildRefresh.NoPlanIffNothingMoved` | packages/connectors/src/meta-child-status-refresh.ts:106-117 | there is no plan exactly when no known parent's status changed |
| `ChildRefresh.CoverageOfPlan` | packages/connectors/src/meta-child-status-refresh.ts:126-139 | for any links at all, the exact number of planned reads that return a child |
| `ChildRefresh.ChangedChildrenReadOnce` | packages/connectors/src/meta-child-status-refresh.ts:126-139 | when parent links agree, a child below a changed parent is on exactly one planned read of its edge and any other child on none |
| `RefreshPlans.PlanNamesTheMoved` | packages/connectors/src/meta-child-status-refresh.ts:106-117 | a plan names exactly the parents whose status or effective_status prints differently from the last stored version |
| `RefreshPlans.PlacedIs` | packages/connectors/src/meta-child-status-refresh.ts:121 | an ad set counts under the campaign the scan last read it under, else the last stored one |
| `RefreshPlans.PlanIsEstimated` | packages/connectors/src/meta-child-status-refresh.ts:122-145 | each read is estimated at the least number of pages of 500, and at least one, that hold its parent's stored children, and the plan at their sum |
| `ChildRefresh.RunRefresh` | packages/connectors/src/meta-child-status-refresh.ts:198-268 | the loop computes the refresh, all or nothing: over budget, a failed read or an unexplained child applies nothing |
| `RefreshRuns.AppliedIff` | packages/connectors/src/meta-child-status-refresh.ts:208-267 | the refresh is applied if and only if the estimate fits, every planned read was answered, and every child the reads returned is known with unchanged fields |
| `RefreshRuns.FailureIs` | packages/connectors/src/meta-child-status-refresh.ts:211-226 | too large an estimate, or a budget error as the first failure, asks for the full read and says which; any other first failure ends the refresh |
| `RefreshRuns.TroubleIs` | packages/connectors/src/meta-child-status-refresh.ts:245-260 | a fallback on a child names one the reads returned and what is wrong with it, ad sets before ads |
| `RefreshRuns.ConsideredAre` | packages/connectors/src/meta-child-status-refresh.ts:215-233 | the children considered on an edge are exactly those the reads of that edge returned, the last answer of an id winning |
| `RefreshRuns.AdsetIsReturned` | packages/connectors/src/meta-child-status-refresh.ts:234-267 | of a considered ad set its base with the lean status is returned if that status prints differently, else nothing |
| `RefreshRuns.AdIsReturned` | packages/connectors/src/meta-child-status-refresh.ts:234-267 | the same for an ad, which is the merged node of the lean inventory |
| `RefreshRuns.ReturnedIsConsidered` | packages/connectors/src/meta-child-status-refresh.ts:234-267 | nothing else is returned |
| `ChildRefresh.AppliedReturnsTheMoved` | packages/connectors/src/meta-child-status-refresh.ts:234-267 | an applied refresh returns exactly the read children whose status moved, each its base but for status and, for ads, the resolved creative |
| `ChildRefresh.OverlayIsCurrent` | packages/connectors/src/index.ts:11492-11502 | overlaying the returned children gives every read child its lean status |
| `ChildRefresh.UpsertAllById` | packages/connectors/src/index.ts:11492-11502 | the upsert leaves the new node under each returned id and the old one under every other |
| `ChildRefresh.RefreshIsIdempotent` | packages/connectors/src/meta-child-status-refresh.ts:198-268 | the same reads over the overlay return nothing |
| `ScanCheckpoint.CheckpointIsAStart` | packages/connectors/src/meta-entity-checkpoint.ts:1-4 | the checkpoint is always the start of a committed scan |
| `ScanCheckpoint.FirstScanReads` | packages/connectors/src/meta-entity-checkpoint.ts:10-15 | the first scan that starts once an update hidden at most 300 001 ms is visible reads it, in any mode, whatever failed before |
| `ScanCheckpoint.NoUpdateLost` | packages/connectors/src/meta-entity-checkpoint.ts:10-15 | over every run, once a scan started after the update became visible has committed, some committed scan has read it |
| `ScanCheckpoint.HiddenIsLost` | packages/connectors/src/meta-entity-checkpoint.ts:14 | a full and an incremental scan that both commit and neither reads an update hidden 300 002 ms |
| `ScanCheckpoint.LagSafeIff` | packages/connectors/src/meta-entity-checkpoint.ts:10-15 | over every run, no update hidden up to a given lag is lost if and only if the lag is at most 300 001 ms |
| `ScanCheckpoint.FullAtLeastDaily` | packages/connectors/src/meta-entity-checkpoint.ts:13 | any scan 24 h or more after every committed full scan's start is full |
| `ScanCheckpoint.LeanNeedsRecentHeavy` | packages/connectors/src/meta-lean-inventory.ts:146-164 | a full scan that reads lean follows a committed heavy one of the same shape within 7 days |
| `ScanCheckpoint.RequestedFullReadHappens` | packages/connectors/src/index.ts:4569-4591 | a full read an incremental scan asked for stays due until a full scan commits |
| `ScanCheckpoint.IncrementalIff` | packages/connectors/src/meta-entity-checkpoint.ts:13-14 | while the clock does not go back, a scan is incremental if and only if a committed full scan not revoked since started less than 86 400 000 ms before |
| `ScanCheckpoint.LeanWhenRecentHeavy` | packages/connectors/src/meta-lean-inventory.ts:146-164 | a full scan within 604 800 000 ms of a committed heavy one is lean, unless it falls back or the shape changed |
| `ScanCheckpoint.HeavyReasonTells` | packages/connectors/src/meta-lean-inventory.ts:146-164 | the reason for a heavy read tells what the run lacks: a committed scan, a committed heavy one, the newest of this shape, or one less than 604 800 000 ms old |
| `ScanCheckpoint.IncrementalReads` | packages/connectors/src/meta-entity-checkpoint.ts:14 | an incremental scan reads exactly what was updated from 300 s before the newest committed start |
| `RollupSums.RoundSumKeepsMicros` | packages/connectors/src/meta-ads-hot-rollup.ts:204-206 | rounding leaves exactly the multiples of a millionth alone |
| `RollupSums.SumOfGroups` | packages/connectors/src/meta-ads-hot-rollup.ts:386-406 | totals over groups add up to the total over all rows |
| `RollupActions.AddElement` | packages/connectors/src/meta-ads-hot-rollup.ts:224-233 | the inner loop adds exactly the counted windows of one element, the headline pinned when no window is given |
| `RollupActions.ActionAccumulator.Add` | packages/connectors/src/meta-ads-hot-rollup.ts:215-235 | fails exactly on an untyped element; otherwise the sums are those of all elements so far |
| `RollupActions.ActionAccumulator.Elements` | packages/connectors/src/meta-ads-hot-rollup.ts:237-243 | lists each type once with its rounded totals |
| `RollupActions.TableSnoc` | packages/connectors/src/meta-ads-hot-rollup.ts:215-235 | the incremental table is the table of totals over every element |
| `RollupResults.ValuesIff` | packages/connectors/src/meta-ads-hot-rollup.ts:255-267 | an entry's values are summable exactly when each has one window of its own and a finite count not below zero, and then each window has its value |
| `RollupResults.SumResultIndicator` | packages/connectors/src/meta-ads-hot-rollup.ts:277-293 | the loop computes nothing, unknown or the windows' totals |
| `RollupResults.TotalIff` | packages/connectors/src/meta-ads-hot-rollup.ts:270-293 | values exactly when every ad gave summable values, nothing exactly when no ad reported the indicator, and totals are never below zero |
| `HotRollup.GroupAccumulator.Add` | packages/connectors/src/meta-ads-hot-rollup.ts:318-335 | fails exactly on an untyped action; otherwise every field stands for the rows so far and the new one |
| `HotRollup.GroupAccumulator.Build` | packages/connectors/src/meta-ads-hot-rollup.ts:337-370 | the built row has the rows' totals, rates from the sums, lists, results and the common goal |
| `HotRollup.RefusedIff` | packages/connectors/src/meta-ads-hot-rollup.ts:386-405 | no row is refused exactly when every row names campaign, ad set and day, all of one day, with typed actions, and each ad set is under one campaign |
| `HotRollup.RollUp` | packages/connectors/src/meta-ads-hot-rollup.ts:378-415 | succeeds exactly on such rows, with one derived row per campaign and per ad set in order of first appearance, each from exactly its own rows; otherwise reports the first row's refusal |
| `RollupOrder.Conserved` | packages/connectors/src/meta-ads-hot-rollup.ts:378-415 | at both grains ad rows, clicks, link clicks and impressions are conserved, and spend up to half a millionth per derived row |
| `RollupOrder.SpendIsClose` | packages/connectors/src/meta-ads-hot-rollup.ts:203-206 | each derived row's spend is within half a millionth of its rows' |
| `RollupOrder.OrderDoesNotMatter` | packages/connectors/src/meta-ads-hot-rollup.ts:378-415 | success, the entities and every derived number, list, result and goal survive any reordering of the rows |
| `RollupNumbers.NumbersAre` | packages/connectors/src/meta-ads-hot-rollup.ts:318-361 | a group's clicks, link clicks and impressions are the sums of its rows' own fields, each rounded to the nearest whole, spend theirs within half a millionth at six decimals; ctr, cpc and cpm give the numerator back and are missing exactly over zero |
| `RollupNumbers.DerivedNumbers` | packages/connectors/src/meta-ads-hot-rollup.ts:378-415 | a derived row states these of exactly the rows that carry its entity's id |
| `RollupNumbers.DerivedParents` | packages/connectors/src/meta-ads-hot-rollup.ts:345-349 | its campaign, ad set and day are those of every one of these rows |
| `RollupNumbers.EntitiesAre` | packages/connectors/src/meta-ads-hot-rollup.ts:397-414 | every entity some row names has one derived row, and there are no others |
| `RollupNumbers.FirstSeenOrder` | packages/connectors/src/meta-ads-hot-rollup.ts:406-414 | in the order in which the entities first appear |
| `RollupNumbers.AllAccountedFor` | packages/connectors/src/meta-ads-hot-rollup.ts:378-415 | the derived rows together state what the ad rows together tell: counts exactly, spend within half a millionth for each |
| `RollupNumbers.NamesAre` | packages/connectors/src/meta-ads-hot-rollup.ts:324-328 | each name, date stop, objective and currency is the first of its column that is not empty |
| `RollupNumbers.RefusalIs` | packages/connectors/src/meta-ads-hot-rollup.ts:386-404 | rows are refused if and only if something is wrong with one, and the first such row says what |
| `RollupEntries.TypesAre` | packages/connectors/src/meta-ads-hot-rollup.ts:215-243 | a derived list has one element for each type that occurs |
| `RollupEntries.WindowsAreTold` | packages/connectors/src/meta-ads-hot-rollup.ts:224-243 | an element has a window if and only if some ad element of its type counts it, with the sum of what all of them tell of it at six decimals; a lone value tells 7d_click as well |
| `RollupEntries.ReadableIs` | packages/connectors/src/meta-ads-hot-rollup.ts:251-267 | an ad's values can be summed if and only if it has one entry for the indicator and each value has one named window of its own and a count not below zero |
| `RollupEntries.ResultsAreTold` | packages/connectors/src/meta-ads-hot-rollup.ts:339-341 | the results answer exactly the indicators asked for that some ad names, in the caller's order, with values only when every ad's can be summed |
| `RollupEntries.ValueIsTold` | packages/connectors/src/meta-ads-hot-rollup.ts:284-293 | each derived count is the sum of what the ads tell of its window, at six decimals |
| `RollupLevels.CountLevels` | packages/connectors/src/meta-ads-hot-rollup.ts:318-323 | counts of derived ad sets add up to the campaign's, with no assumption on the input |
| `RollupLevels.SpendLevels` | packages/connectors/src/meta-ads-hot-rollup.ts:318-338 | so does spend, for multiples of a millionth |
| `RollupLevels.GoalLevels` | packages/connectors/src/meta-ads-hot-rollup.ts:337-339 | the common goal of the ad sets is the common goal of the ads |
| `RollupLevels.DerivedReads` | packages/connectors/src/meta-ads-hot-rollup.ts:251-293 | a derived results list reads back as what it states: values as values, unknown and nothing as neither |
| `RollupLevels.ResultLevels` | packages/connectors/src/meta-ads-hot-rollup.ts:277-293 | values, unknown or nothing of an indicator is the same from the ad sets as from the ads |
| `RollupActionLevels.AmountLevels` | packages/connectors/src/meta-ads-hot-rollup.ts:215-243 | every action window adds up over derived ad sets, but the 7-day click window also counts bare values again |
| `RollupActionLevels.TablesAgreeIff` | packages/connectors/src/meta-ads-hot-rollup.ts:224-233 | the action lists of the two levels agree if and only if, for each type, there is no bare ad set list, or the click window is there anyway and the bare values cancel |
| `RollupActionLevels.PlainIff` | packages/connectors/src/meta-ads-hot-rollup.ts:226-229 | only an explicit null in a headline window beside a counted value can make a list bare |
| `RollupActionLevels.NullClickExample` | packages/connectors/src/meta-ads-hot-rollup.ts:226-233 | one element with a null click window and a value of 3: no click window at the first level, 3 at the second |
| `RollupTwice.DerivedRollable` | packages/connectors/src/meta-ads-hot-rollup.ts:386-405 | the derived ad set rows of a successful rollup can themselves be rolled up |
| `RollupTwice.SameCampaigns` | packages/connectors/src/meta-ads-hot-rollup.ts:397-405 | to the same campaigns |
| `RollupTwice.TwoLevels` | packages/connectors/src/meta-ads-hot-rollup.ts:378-415 | each campaign row of the second rollup has the campaign's counts, spend, rates, goal and results, and its action lists if and only if no bare list counts |
| `RollupTwice.PlainTwoLevels` | packages/connectors/src/meta-ads-hot-rollup.ts:378-415 | with no null headline window beside a value, the second rollup measures everything the first does |
| `StreamReader.ReadFrames` | apps/cli/src/desktop-app-client.ts:1411-1541 | the loops over chunks and lines compute the chunked reading: callbacks and outcome |
| `StreamChunks.ChunkingIrrelevant` | apps/cli/src/desktop-app-client.ts:1505-1541 | within the size limits, callbacks and outcome are a function of the whole text |
| `StreamChunks.CutsAgreeIff` | apps/cli/src/desktop-app-client.ts:1432-1528 | for any text within the stream limit, all cuts agree if and only if each line that is reached and too long with its CR is not blank and too long without it, or is a terminal frame followed by something too long |
| `StreamChunks.CutBeforeLfMatters` | apps/cli/src/desktop-app-client.ts:1517-1528 | a frame that fills the limit and ends in CR LF is handed on or refused depending on the cut |
| `StreamChunks.LongBlankLine` | apps/cli/src/desktop-app-client.ts:1433-1444 | a blank line over the limit is called blank or oversized depending on the cut |
| `StreamReader.SuccessIff` | apps/cli/src/desktop-app-client.ts:1432-1503 | success exactly when the stream closes and its lines are progress frames and then one terminal frame, numbered 1..n for this request; the callbacks are those frames |
| `StreamFailures.FailureIff` | apps/cli/src/desktop-app-client.ts:1432-1541 | a stream within the limits fails for a reason if and only if its first wrong line is wrong in that way, or no line is wrong and it breaks off or ends without a terminal frame; the progress before is handed on |
| `StreamFailures.StreamBound` | apps/cli/src/desktop-app-client.ts:1505-1514 | a stream of more than 16 777 216 bytes never succeeds, and only such a one is called oversized |
| `StreamFailures.BytesAreUtf8` | apps/cli/src/desktop-app-client.ts:1439 | a line's size is that of its UTF-8 encoding |
| `StreamFailures.CodesTellApart` | apps/cli/src/desktop-app-client.ts:1432-1541 | each kind of failure has its own code, those of malformed frames one in common |
| `StreamedConfirm.Listener.OnFrame` | apps/cli/src/desktop-app-client.ts:868-886 | one frame's effect on the receipt, the failure and both callbacks |
| `StreamedConfirm.StreamConfirmation` | apps/cli/src/desktop-app-client.ts:861-970 | the exchange's reply is fixed by whether a stream was opened, the frames heard and how it ended |
| `StreamedConfirm.Listener.Settle` | apps/cli/src/desktop-app-client.ts:926-969 | a receipt is returned and a refused one thrown whatever the ending; with neither the ending decides |
| `StreamedConfirm.HeardAfterFirstReceipt` | apps/cli/src/desktop-app-client.ts:870-886 | the receipt handed on is the first one, at most once, and the progress handed on is what follows it |
| `StreamedConfirm.FirstReceiptStands` | apps/cli/src/desktop-app-client.ts:926-969 | exchanges that agree up to the first receipt return the same receipt or throw the same refusal, whatever follows |
| `StreamedConfirm.ReceiptInChunksStands` | apps/cli/src/desktop-app-client.ts:861-970 | once the chunks read so far have delivered a receipt, no further chunks, of any size and however the stream ends, change the receipt, the refusal or the calls |
| `StreamedConfirm.ReceiptInTextStands` | apps/cli/src/desktop-app-client.ts:861-970 | the same for the text of a stream within the limits, however it is cut |
| `StreamedConfirm.NoReceiptNoClaim` | apps/cli/src/desktop-app-client.ts:926-948 | without a receipt nothing is returned, and the error claims nothing ran only on the app's mark or a proving code, never for a lost stream |
| `StreamFailures.SettledReply` | apps/cli/src/desktop-app-client.ts:926-1012 | a first receipt that was confirmed is returned as it came, with the turn the terminal frame carries or why there is none; one that was not is thrown with its own code and view |
| `StreamFailures.EndedUnsettled` | apps/cli/src/desktop-app-client.ts:926-948 | without a receipt an error frame is thrown with its code and a done frame leaves the outcome unknown |
| `StreamFailures.FailedUnsettled` | apps/cli/src/desktop-app-client.ts:926-985 | without a receipt a failed stream leaves the outcome unknown, whatever was wrong with it |
| `Narrowing.SplitWindow` | packages/connectors/src/meta-async-insights.ts:45-56 | the cursor loop computes the split |
| `Narrowing.SplitTiles` | packages/connectors/src/meta-async-insights.ts:45-56 | the parts tile the window in order, with no gap and no overlap, each within the size and shorter than the window |
| `Narrowing.FetchWithNarrowing` | packages/connectors/src/meta-async-insights.ts:83-101 | the recursive fetch delivers what the ladder delivers, in order |
| `Narrowing.ExactlyOnce` | packages/connectors/src/meta-async-insights.ts:83-101 | a completed ladder delivers every day's rows exactly once; one that throws has delivered exactly a prefix of whole days |
| `Narrowing.RequestBound` | packages/connectors/src/meta-async-insights.ts:63-101 | at most 1 + ceil(n/7) + n page reads and n final rungs for n days |
| `Narrowing.NarrowerAre` | packages/connectors/src/meta-async-insights.ts:63-68 | more than a week narrows to weeks that tile it, two to seven days to single days, one day to nothing |
| `Narrowing.FailureHasCause` | packages/connectors/src/meta-async-insights.ts:83-101 | a ladder fails only by its last request: a read that failed for another reason than volume, or the report job of a single day whose read was too large |
| `Narrowing.CompletesUnlessRefused` | packages/connectors/src/meta-async-insights.ts:83-101 | so a window whose reads fail on volume only, and whose days' report jobs answer, is delivered to its end |
| `LexicalStates.ComputeStates` | packages/instrument/src/lexical-states.ts:5-57 | the array loop with its skips computes the automaton's labels |
| `LexicalStates.LabelsPrefixStable` | packages/instrument/src/lexical-states.ts:10-55 | extending the source never changes a label before the last offset |
| `LexicalStates.LastLabelChanges` | packages/instrument/src/lexical-states.ts:14-25 | the last label changes exactly when a code slash becomes a comment opener |
| `LexicalStates.QuotedRunIsDelimited` | packages/instrument/src/lexical-states.ts:26-54 | a maximal run labelled string or template starts after a quote labelled code, keeps that quote's label and, unless the source ends, stops at the same quote labelled code |
| `LexicalStates.LineCommentRuns` | packages/instrument/src/lexical-states.ts:14-45 | a line comment is labelled through its newline or the end of the source, and code goes on after it |
| `LexicalStates.BlockCommentRuns` | packages/instrument/src/lexical-states.ts:20-45 | a block comment is labelled through the next star and slash, its opening star included, and code goes on after it |
| `LexicalStates.EscapeIsSkipped` | packages/instrument/src/lexical-states.ts:47-55 | inside quotes a backslash takes the next character with it, and only the opening quote closes them |
| `LexicalStates.CodeGoesOn` | packages/instrument/src/lexical-states.ts:26-36 | only a quote or an opened comment leaves code |

## Left out

- Graph HTTP, the Meta CLI, Postgres, crypto, text decoding and JSON parsing of a line: oracles or atomic steps.
- Tokenless and CLI creates: they write no dedup row or run no cooldown check, so nothing above is claimed for them.
- The credential binding check before a claim: it throws before any row or request.
- The budget fields, money-safety remediation pause and envelope fields of a create: they touch neither the dedup row nor the hold.
- How a connector derives a diagnostic from an HTTP answer or a command line: any marks and answers are allowed.
- MetaCreateFlow.Tables.RunMetaCreate: runs one caller's statements back to back; interleavings are runs of `MetaCreate`.
- The intent hash: two intents are compared as values, so its own canonical form is not modelled.
- IdentityFlow.Store.Resolve: the sleep between attempts is the other callers' statements; that it ends in an answer rather than busy is claimed for a caller alone, not against other callers.
- Lone surrogates, NaN, infinities, negative zero, bigints and functions in JSON values: strings are Unicode scalar values and numbers are their printed text; ties of `localeCompare` between distinct keys.
- `scrub` in the child refresh: fresh nodes are taken as already normalized.
- Dates: windows are ranges of day numbers and times are milliseconds; parsing ISO text is not modelled.
- Floating-point rounding: spend and sums are reals, so associativity of addition is exact.
- RollupActions.ActionAccumulator.Elements: the order of derived elements and of their keys is left open; nothing depends on it.
- RollupTwice.TwoLevels: names, dates and other first-non-empty fields, and the count of rows, are not compared between levels.
- Reach, frequency and the cost fields of a derived row: constants null.
- The desktop request deadline and its race with the reader, callbacks that throw, and URLs, telemetry, media hand-off and page continuation of the sync.
- The asynchronous report job, the daemon spawn lock, routes, prompts and terminal rendering.
- Fidelity of the labeller to JavaScript: `/*/` closes early and `${}` does not nest, as in the code.
