# Verified model of the social protocol's indexer, authentication store, feed and codecs

A Dafny 4.11 model of the parts of the repository whose correctness rests on more than one function, with proofs of
what they promise. `dafny verify dfyconfig.toml` checks all of it.

## What is modelled

**The indexer's projection.** `ProtocolEvents` holds the finalized events of one network and the schema rules that
relate their fields. `Projection` says, for every kind of event and every treatment of its off-chain manifest
(accepted, deferred, quarantined or left out), which maps it changes and when it is refused. `ManifestLifecycle` adds
promotion and rejection, and runs: sequences of operations in which manifests arrive late, or never. `MemoryStore` is
the class that keeps the maps and updates them in place; every method is proved against those functions, state and
outcome. On this rest the main results:

- `Rebuild`: the store always is in the state that one replay of its log reaches, so when manifests arrive and in
  which order they are promoted or rejected makes no difference, and rebuilding from the raw log, supplied in any
  order, restores it.
- `Suppression` and `OpenIndexing`: manifests that a later event supersedes can be left out of a rebuild without
  changing anything that is served.
- `Authorization`: a historical signing query answers what a store that stopped at that position would have answered.
- `Membership`, `GovernanceTally`, `Eligibility`, `RecoverySafety`, `HandleIndex`: what every reachable state keeps.
  These are proved over `ChainState.Chain`, the fold of the raw log; `ChainState.RunFollowsChain` carries them to every
  run of the store, because identities, handles, recovery and governance are equal there and communities and
  memberships differ at most in what manifests prove.
- `EventOrder`: the comparator, the guard that makes it a strict total order, and sorting. `NetworkLock`: the queue
  underneath.

**The authentication store.** `AuthState` says what each operation means, `AuthStore` is the class over five maps,
`AuthInvariant` keeps the root invariant over runs, and `AuthCleanup` says exactly what a cleanup can be noticed by.

**Feed ranking.** `Ranking` is the greedy selection over an uninterpreted score that depends on what was chosen before;
`FeedEngine` filters, ranks and pages.

**Codecs.** `Borsh` and `AnchorEvents` are the event reader with its moving offset and the layouts of all 33 events;
`Base58` is the big-number printer and parser.

## What is assumed

The store leaves these to the chain or to the manifest verifier; each is a named hypothesis of the results that need it.

- `Rebuild.OpsMatch`: a manifest that reaches the store is the object its event points to (object identifier, and for
  memberships payload hash and content identifier).
- `Rebuild.OrderlyLog`: events are first taken in in canonical order (promotions and rejections at any time), a post
  object is published once, and a tombstone names a post of its own author. The last two are shown to be necessary by
  `TombstoneCommutesOnlyForAuthors` and `PromotionsCommuteOnlyForDifferentPosts`.
- `Authorization.CreatesOnce`: an identity is created once; the store has no guard against a second creation, and
  `CreatingAgainForgets` says that one turns every earlier answer into no.
- `Membership.ValidLog`: events satisfy the schema rules.
- `AuthInvariant.IsFresh`: new accounts are pending and new credentials are not revoked.
- `OpenIndexing.FetchesAgain`: fetching an accepted manifest that no later event supersedes gives the same manifest
  again. Nothing is assumed about superseded ones; they may be gone.

Program-derived addresses, hashes and signatures are functions or values about which nothing is assumed.

## Where the code promises less than it seems to

- Session rotation is not indifferent to cleanup: `rotateSession` does not look at the account, and `putSession` accepts
  a pending one, so deleting an abandoned account can end a live session. `RotationUnchangedUnlessDoomed` gives the exact
  condition, `RotationOfPendingAccountChanges` a run, and `RotationUnchangedInRuns` the runs in which it cannot
  happen.
- The cursor that a page issues is not always accepted: escaped unpaired surrogates take six bytes each, so a cursor
  after an identifier with many of them exceeds the 2,048 characters that a request may carry, although an item may have
  such an identifier. `PagesAreTheRanking` shows that paging works if and only if `AllCursorsFit`,
  `UnpairedSurrogatesDoNotFit` an identifier that breaks it, and `WellFormedPages` that well-formed identifiers never do.
- Base58 printing does not distinguish no bytes from one zero byte; `DecodeEncoded` states the exception.
- Approval at 5,001 basis points is not a simple majority from 5,001 decisive votes on.

## Model

| member | source | states |
|---|---|---|
| EventOrder.AssertUnambiguousEventOrder | apps/indexer/src/events.ts:1005-1044 | The guard accepts a log exactly when its positions are pairwise compatible: one index per transaction of a slot, and distinct known indexes for different transactions of a slot |
| EventOrder.TransactionsBySlot | apps/indexer/src/events.ts:1006-1023 | The first loop gathers one index for every transaction of every slot, or finds two events of a transaction that disagree |
| EventOrder.IndexesDistinct | apps/indexer/src/events.ts:1025-1043 | The inner loop accepts the transactions of a slot exactly when no two of them lack an order |
| EventOrder.StrictTotalOrder | apps/indexer/src/events.ts:1046-1064 | On every log that passes the guard the comparator orders any two coordinates one way only, transitively |
| EventOrder.CompareAntisymmetric | apps/indexer/src/events.ts:1046-1064 | Swapping the arguments of the comparator swaps its sign |
| EventOrder.CompareStringsTransitive | apps/indexer/src/events.ts:1057-1062 | The code-unit order on signatures is transitive |
| EventOrder.MissingIndexBreaksTransitivity | apps/indexer/src/events.ts:1050-1064 | Without the guard, three positions of one slot, one of them without an index, follow each other in a circle |
| EventOrder.SortSorts | apps/indexer/src/events.ts:1046-1064 | Sorting a log that passes the guard puts every event before all later ones |
| EventOrder.SortIsCanonical | apps/indexer/src/memory-projection.ts:2238-2243 | Every permutation of a log that passes the guard sorts to one and the same ascending log |
| ChainState.RunFollowsChain | apps/indexer/src/memory-projection.ts:690-2044 | After any run of apply, defer, promote, reject and quarantine, identities, handles, recovery, social edges, governance and the cores of communities and memberships are what the raw log alone determines |
| ChainState.ReplayFollowsChain | apps/indexer/src/memory-projection.ts:2238-2257 | A replay under any treatments that succeed agrees with the same fold of its raw events |
| ChainState.CheckAgrees | apps/indexer/src/memory-projection.ts:2046-2129 | A manifest can only make the checks on a membership transition stricter |
| ChainState.PerformAgrees | apps/indexer/src/memory-projection.ts:235-688 | Every operation that changes the store appends its event, or leaves the log alone, and keeps the agreement with the chain |
| Rebuild.PromoteAtOnce | apps/indexer/src/memory-projection.ts:388-528 | Taking in an event with its manifest is taking it in without and promoting it right away |
| Rebuild.PromoteCommutes | apps/indexer/src/memory-projection.ts:388-528 | Promoting an earlier event and taking in a later one can be done in either order, for all pairs of events |
| Rebuild.PromotePostCommutes | apps/indexer/src/memory-projection.ts:436-452 | A late post commutes with every content event, a later tombstone of it included |
| Rebuild.PromoteMembershipCommutes | apps/indexer/src/memory-projection.ts:472-515 | A late membership manifest commutes with every later membership transition |
| Rebuild.PreviousHashIsCurrent | apps/indexer/src/memory-projection.ts:475-499 | The hash that a late membership manifest must replace, found in the whole log, is the one that was current when its event was taken in |
| Rebuild.RejectCommutes | apps/indexer/src/memory-projection.ts:540-586 | Rejecting an earlier pending event and taking in a later one can be done in either order |
| Rebuild.RejectAtOnce | apps/indexer/src/memory-projection.ts:598-688 | Taking in an event as quarantined is taking it in as pending and rejecting it right away |
| Rebuild.RunIsReplay | apps/indexer/src/memory-projection.ts:235-331 | After every run whose log arrived in canonical order, the store is in the state that one replay of its log reaches with the treatments its manifests finally got |
| Rebuild.RebuildRestores | apps/indexer/src/memory-projection.ts:2184-2287 | Replaying the events of a run in any supplied order with their final treatments restores exactly the present state |
| Rebuild.TimingIsIrrelevant | apps/indexer/src/memory-projection.ts:388-586 | Two runs that end with the same log and the same treatments end in the same state |
| Rebuild.TombstoneCommutesOnlyForAuthors | apps/indexer/src/memory-projection.ts:1273-1284 | A tombstone and a late promotion of its post agree if and only if the tombstone comes from the author |
| Rebuild.PromotionsCommuteOnlyForDifferentPosts | apps/indexer/src/memory-projection.ts:436-452 | Two late posts can be promoted in either order if and only if their object identifiers differ or the stored records are equal |
| Rebuild.TransitionFollowsLog | apps/indexer/src/memory-projection.ts:2068-2175 | Every membership address goes through its state sequence once, in the order of the log |
| Suppression.DeriveAcceptedManifestSuppressions | apps/indexer/src/projection.ts:181-218 | The backward scan justifies exactly the accepted events that a later event supersedes, each by the nearest one |
| Suppression.DerivedSuppressionsAreJustified | apps/indexer/src/projection.ts:181-218 | Leaving out the manifests that the scan finds leaves out superseded ones only |
| Suppression.ReplayTrims | apps/indexer/src/memory-projection.ts:2289-2331 | Replaying profiles and posts without manifests succeeds whenever the full replay does, and only loses their own bytes |
| Suppression.SuppressedReplayServesTheSame | apps/indexer/src/memory-projection.ts:2289-2331 | Without superseded manifests every map is as in the full replay, except that records of posts hidden by a tombstone may be missing |
| Suppression.SuppressedReplayFeedsTheSame | apps/indexer/src/memory-projection.ts:2752-2805 | Every public or following feed is the same after such a replay |
| Suppression.OpenRebuildServesTheSame | apps/indexer/src/indexer.ts:62-115 | For every run, replaying its log with all derived suppressions succeeds and serves what the store serves |
| ReplaySource.DerivedIsCanonical | apps/indexer/src/projection.ts:220-253 | A given reason for leaving out a manifest is the canonical one exactly when the scan found that reason |
| ReplaySource.RunItemsRebuild | apps/indexer/src/memory-projection.ts:2184-2257 | The store accepts the events of any run with their final treatments, in any order, and their replay is the state it has |
| MemoryStore.MemoryProjectionStore.ValidateIdentityLifecycle | apps/indexer/src/memory-projection.ts:2988-3024 | The checks on active identities, sequence snapshots and sequence advances, as one outcome of the identity maps |
| MemoryStore.MemoryProjectionStore.LatestRecoverySequence | apps/indexer/src/memory-projection.ts:3136-3149 | The returned sequence is the least that no recovery record of the identity exceeds |
| MemoryStore.MemoryProjectionStore.LaterTombstoneAt | apps/indexer/src/memory-projection.ts:3026-3055 | The scan finds the latest tombstone by the author of a post after the post |
| MemoryStore.MemoryProjectionStore.PreviousTransitionHash | apps/indexer/src/memory-projection.ts:475-493 | The scan finds the hash of the first recorded transition to the preceding state |
| MemoryStore.MemoryProjectionStore.CountEligibleMembers | apps/indexer/src/memory-projection.ts:1421-1430 | The count is the number of members whose votes a new proposal would count |
| MemoryStore.MemoryProjectionStore.AddressIsTaken | apps/indexer/src/memory-projection.ts:2088-2092 | The search finds out whether another membership holds the address of a transition |
| MemoryStore.MemoryProjectionStore.AuthorizeSigningKey | apps/indexer/src/memory-projection.ts:2395-2430 | The answer is the historical authorization that the stored histories give |
| MemoryStore.MemoryProjectionStore.LookupHandle | apps/indexer/src/memory-projection.ts:2366-2373 | A name resolves through both handle maps to an active claim |
| MemoryStore.MemoryProjectionStore.ApplyIdentityEvent | apps/indexer/src/memory-projection.ts:709-885 | Identity, root and delegation events change their maps as specified, or fail and change nothing |
| MemoryStore.MemoryProjectionStore.ApplyHandleEvent | apps/indexer/src/memory-projection.ts:779-857 | Claims, reclaims and releases change both handle maps as specified, or fail and change nothing |
| MemoryStore.MemoryProjectionStore.ApplyRecoveryEvent | apps/indexer/src/memory-projection.ts:886-1139 | Recovery events change policies and requests as specified, or fail and change nothing |
| MemoryStore.MemoryProjectionStore.RequestRecovery | apps/indexer/src/memory-projection.ts:953-1010 | A request is stored exactly when it matches the active policy of its identity |
| MemoryStore.MemoryProjectionStore.ExecuteRecovery | apps/indexer/src/memory-projection.ts:1084-1139 | A request is executed exactly when it is approved, due, not superseded and its root rotation is the latest |
| MemoryStore.MemoryProjectionStore.ApplyContentEvent | apps/indexer/src/memory-projection.ts:1189-1284 | Profile, post and tombstone events change content as specified for each treatment of their manifest |
| MemoryStore.MemoryProjectionStore.ApplySocialEvent | apps/indexer/src/memory-projection.ts:1234-1369 | Follow, block and reaction events advance their edges as specified, or fail and change nothing |
| MemoryStore.MemoryProjectionStore.ProjectCommunityMembershipTransition | apps/indexer/src/memory-projection.ts:2046-2175 | A transition is stored exactly when it continues policy, membership, address and replacement chain |
| MemoryStore.MemoryProjectionStore.ApplyCommunityEvent | apps/indexer/src/memory-projection.ts:1285-1334 | Community events change communities and memberships as specified, or fail and change nothing |
| MemoryStore.MemoryProjectionStore.ApplyGovernanceEvent | apps/indexer/src/memory-projection.ts:1370-1635 | Proposals, votes and finalizations change governance as specified, or fail and change nothing |
| MemoryStore.MemoryProjectionStore.IngestEvent | apps/indexer/src/memory-projection.ts:702-2044 | A new event is validated, applied to its maps, advances its identity and is recorded, or nothing changes |
| MemoryStore.MemoryProjectionStore.ApplyUnlocked | apps/indexer/src/memory-projection.ts:690-2044 | A recorded event that was accepted changes nothing and reports so; a recorded coordinate with another event, or one pending or terminal, is a conflict; a new event is taken in with its manifest or refused for the reason its checks give, and a refusal changes nothing |
| MemoryStore.MemoryProjectionStore.DeferManifestEvent | apps/indexer/src/memory-projection.ts:235-331 | A new event with a deferrable manifest is taken in and marked pending; one that is pending already changes nothing; any other recorded one is a conflict, and events without deferrable manifests are a mismatch |
| MemoryStore.MemoryProjectionStore.PromoteManifestEvent | apps/indexer/src/memory-projection.ts:388-528 | A pending event with a matching manifest leaves the pending set, and its profile, post, community or membership gets what the manifest proves if it is still current; unknown events are stale, other or rejected ones a conflict, accepted ones change nothing |
| MemoryStore.MemoryProjectionStore.RejectPendingManifestEvent | apps/indexer/src/memory-projection.ts:540-586 | A pending event becomes terminal with its code; the same code again changes nothing, and another code, another event or an accepted event is a conflict |
| MemoryStore.MemoryProjectionStore.QuarantineManifestEvent | apps/indexer/src/memory-projection.ts:598-688 | A new event is taken in without its content and marked terminal with its code; the same event with the same code changes nothing, and any other recorded one is a conflict |
| MemoryStore.MemoryProjectionStore.ApplySuppressed | apps/indexer/src/memory-projection.ts:2289-2331 | A new profile or post event advances identity and references without content, so a profile is dropped and a post is not stored; anything recorded or of another kind is refused |
| MemoryStore.MemoryProjectionStore.PerformOp | apps/indexer/src/memory-projection.ts:228-688 | An operation reports whether it changed the store or why it failed, and a failed one leaves every map as it was |
| MemoryStore.MemoryProjectionStore.SuppressionsAreCanonical | apps/indexer/src/projection.ts:220-253 | The reasons for left-out manifests are accepted exactly when each names the nearest superseding event |
| MemoryStore.MemoryProjectionStore.MatchesLedger | apps/indexer/src/memory-projection.ts:2216-2237 | The supplied items are accepted exactly when they repeat every recorded event with its classification |
| MemoryStore.MemoryProjectionStore.ReplaceNetworkState | apps/indexer/src/memory-projection.ts:3193-3312 | Every projected map is taken over from the replacement, and the raw log and its classifications stay |
| MemoryStore.MemoryProjectionStore.RebuildProjection | apps/indexer/src/memory-projection.ts:2184-2287 | A rebuild succeeds exactly when the items repeat the ledger canonically and unambiguously and replay; it then takes over the replayed maps, and otherwise changes nothing |
| OpenIndexing.BuiltItemsRestore | apps/indexer/src/indexer.ts:62-115 | The items the indexer builds for a run without pending manifests, superseded manifests not fetched at all, are accepted by the store and serve what it serves |
| OpenIndexing.OpenIndexer.ManifestEventDisposition | apps/indexer/src/memory-projection.ts:156-180 | The disposition is read off the ledger for exactly the recorded event |
| OpenIndexing.OpenIndexer.BuildItems | apps/indexer/src/indexer.ts:86-112 | Every event becomes one item by its disposition, and only accepted manifests that no later event supersedes are fetched; only a pending manifest stops this |
| OpenIndexing.OpenIndexer.Rebuild | apps/indexer/src/indexer.ts:62-115 | For every settled store and every order of the supplied events, the rebuild succeeds and nothing that is served changes, even when superseded manifests are gone; a failed rebuild changes nothing |
| Authorization.HistoricalAnswerIsPrefixAnswer | apps/indexer/src/memory-projection.ts:2395-2430 | The historical answer is what current root, live delegations and active flag answer after only the events at or before the position |
| Authorization.AppendingKeepsAnswer | apps/indexer/src/memory-projection.ts:2395-2430 | Whatever is appended to a log after the position of a query, the answer stays |
| Authorization.LaterEventKeepsAnswer | apps/indexer/src/memory-projection.ts:858-885 | No single later event changes an answer |
| Authorization.PresentAnswer | apps/indexer/src/memory-projection.ts:2395-2430 | When no event lies after the position, history and present agree |
| Authorization.CreatingAgainForgets | apps/indexer/src/memory-projection.ts:717-743 | After a second creation of an identity every answer at an earlier position is no |
| Authorization.IdentitiesFollowLog | apps/indexer/src/memory-projection.ts:858-885 | Root histories ascend through the log and end at the current root; exactly the deactivated identities are inactive |
| Authorization.QuerySplits | apps/indexer/src/memory-projection.ts:2400-2409 | The position of a query that passes the guard with the log splits the log in two |
| Authorization.HistoricalAuthorization | apps/indexer/src/memory-projection.ts:2395-2430 | After any run, a query answers as a store that stopped at its position would have |
| Membership.MembershipHolds | apps/indexer/src/memory-projection.ts:2046-2175 | In every reachable state a membership sequence is its creation value plus the state sequences of all members, active means a positive joining sequence, and active members joined at different sequences |
| Membership.TransitionConserves | apps/indexer/src/memory-projection.ts:2130-2175 | A transition keeps the sum |
| Membership.TransitionKeepsJoinsDistinct | apps/indexer/src/memory-projection.ts:2115-2118 | A transition keeps the joining sequences of active members apart |
| Membership.BannedForever | apps/indexer/src/memory-projection.ts:3464-3477 | A banned record never changes again |
| Membership.RunKeepsMembershipInvariant | apps/indexer/src/memory-projection.ts:2046-2175 | The same invariant after every run of the store, whatever became of its manifests |
| GovernanceTally.GovernanceHolds | apps/indexer/src/memory-projection.ts:1470-1634 | In every reachable state tallies are the stored votes by choice with one per voter, state sequences count votes and the end, and outcomes follow from the tallies |
| GovernanceTally.RunKeepsGovernanceInvariant | apps/indexer/src/memory-projection.ts:1470-1634 | The same invariant after every run of the store |
| GovernanceTally.FinalizedForever | apps/indexer/src/memory-projection.ts:1578-1634 | A finalized proposal and its votes never change again |
| GovernanceTally.ApprovalIsAMargin | apps/indexer/src/memory-projection.ts:1606-1612 | Approval is a majority by one part in 5,000 of the decisive votes; it implies more yes than no and coincides with it up to 5,000 decisive votes |
| GovernanceTally.ApprovalFirstDiffers | apps/indexer/src/memory-projection.ts:1606-1612 | Among up to 5,001 decisive votes the only majority that is not an approval is 2,501 to 2,500 |
| Eligibility.VotersWereEligible | apps/indexer/src/memory-projection.ts:1421-1430 | In every reachable state the voters of a proposal are among the members counted when it was created |
| Eligibility.VoterStayedEligible | apps/indexer/src/memory-projection.ts:1506-1518 | From the creation of a proposal up to an accepted vote the voter was an eligible member all along |
| Eligibility.CountGuardIsRedundant | apps/indexer/src/memory-projection.ts:1537-1544 | In every reachable state a vote that passes all other checks passes the count guard |
| Eligibility.CountGuardIsRedundantInRuns | apps/indexer/src/memory-projection.ts:1537-1544 | The same in every state that a run of the store leads to |
| Eligibility.StayedActive | apps/indexer/src/memory-projection.ts:2115-2118 | Being a member since before a snapshot is inherited backwards to the snapshot, with the same record |
| RecoverySafety.ExecutedRecoveryIsJustified | apps/indexer/src/memory-projection.ts:1084-1139 | An executed recovery was requested earlier; since then exactly one event moved the identity, the reported rotation to the requested key; the delay passed; and at least threshold distinct guardians of the policy approved |
| RecoverySafety.ApprovalsAlwaysAgree | apps/indexer/src/memory-projection.ts:1011-1050 | In every reachable state the approval count, the mask population and the list of approvers agree, and approvers are distinct guardians |
| RecoverySafety.PopulationAfter | apps/indexer/src/memory-projection.ts:1041-1048 | Setting the bit of a guardian adds exactly that position to the population of the mask |
| RecoverySafety.SupersededNeverExecutes | apps/indexer/src/memory-projection.ts:1112-1113 | Once a recovery has executed, no other request made for the identity at that or an earlier sequence ever executes |
| RecoverySafety.OnlyMover | apps/indexer/src/memory-projection.ts:3010-3022 | Between two points one sequence apart only one event moves an identity |
| RecoverySafety.ReportedRotation | apps/indexer/src/memory-projection.ts:1116-1123 | The rotation that an execution reports is an earlier event of the same transaction in the log |
| RecoverySafety.ExecutionsAlwaysHold | apps/indexer/src/memory-projection.ts:1109-1139 | Every executed request has its threshold, its delay and the next identity sequence |
| HandleIndex.HandlesFollowLog | apps/indexer/src/memory-projection.ts:779-857 | Over all claims, releases and reclaims the two handle maps stay inverse, and a lookup answers the last claim in the log unless released since |
| HandleIndex.RunAnswersLastClaim | apps/indexer/src/memory-projection.ts:2366-2373 | The same after every run of the store |
| AuthInvariant.RootsHoldInEveryRun | apps/auth-service/src/memory-store.ts:99-157 | In every state of every run whose accounts start pending and credentials unrevoked, active accounts have an unrevoked credential, unrevoked credentials and bundles match one to one, and an account has one root key |
| AuthInvariant.FinalizeKeeps | apps/auth-service/src/memory-store.ts:99-126 | Finalizing the first credential keeps the root invariant |
| AuthInvariant.AddKeeps | apps/auth-service/src/memory-store.ts:128-157 | Adding a credential keeps the root invariant |
| AuthInvariant.RevokeKeeps | apps/auth-service/src/memory-store.ts:220-253 | Revoking a credential keeps the root invariant |
| AuthInvariant.CleanKeeps | apps/auth-service/src/memory-store.ts:303-359 | A cleanup pass keeps the root invariant |
| AuthInvariant.CountersRise | apps/auth-service/src/memory-store.ts:401-410 | A stored counter never falls, and one in use rises with every completed authentication |
| AuthCleanup.ResolutionUnchanged | apps/auth-service/src/session-manager.ts:76-94 | From the time of a cleanup on, every cookie resolves as without it |
| AuthCleanup.RotationUnchangedUnlessDoomed | apps/auth-service/src/memory-store.ts:267-287 | From then on a rotation has the same outcome if and only if it is not one that may rotate (stored, own, live session) for a deleted pending account |
| AuthCleanup.RotationUnchangedInRuns | apps/auth-service/src/memory-store.ts:267-287 | In runs that start sessions for active accounts only, rotation never tells whether cleanup ran |
| AuthCleanup.RotationOfPendingAccountChanges | apps/auth-service/src/memory-store.ts:255-260 | A run of three operations, registering an account, storing a session of it and a cleanup, after which a rotation that was possible before is refused |
| AuthCleanup.ConsumptionUnchangedUnlessDoomed | apps/auth-service/src/memory-store.ts:60-82 | From then on a ceremony is consumed with the same outcome if and only if it is not a consumable one of a deleted pending account |
| AuthCleanup.ActiveAccountsUntouched | apps/auth-service/src/memory-store.ts:303-359 | Active accounts keep their record, credentials, bundles and sessions that are not stale |
| AuthCleanup.PassReducesBacklog | apps/auth-service/src/memory-store.ts:354-358 | A pass takes what it reports off the backlog, and reports nothing if and only if nothing is stale |
| AuthCleanup.PassesDrain | apps/auth-service/src/memory-store.ts:303-359 | As many passes as there are stale records leave none |
| AuthStore.MemoryAuthStore.CreateProvisionalAccount | apps/auth-service/src/memory-store.ts:27-43 | A fresh account with a fresh handle is stored with its ceremony, both or neither; a taken account, handle or ceremony, or a ceremony of another account, is an invalid request |
| AuthStore.MemoryAuthStore.ConsumeCeremony | apps/auth-service/src/memory-store.ts:60-82 | A ceremony of the right purpose and account that is unconsumed, unexpired and has attempts left is returned, stamped and bound to the account; otherwise there is no result and no change |
| AuthStore.MemoryAuthStore.FinalizeFirstCredential | apps/auth-service/src/memory-store.ts:99-126 | A pending account without bundles becomes active with its first credential and root bundle, all or nothing; a foreign bundle is invalid, and any other obstacle a duplicate |
| AuthStore.MemoryAuthStore.AddCredential | apps/auth-service/src/memory-store.ts:128-157 | An active account gets a further credential whose bundle wraps the one root key it already has; a foreign bundle or another root is invalid, a taken identifier a duplicate |
| AuthStore.MemoryAuthStore.ActiveRootPublicKeys | apps/auth-service/src/memory-store.ts:369-382 | The root keys of an account that unrevoked credentials wrap, each once |
| AuthStore.MemoryAuthStore.CompleteAuthentication | apps/auth-service/src/memory-store.ts:159-192 | The counter update and the new session of an active account are stored together, or the verification fails and neither is |
| AuthStore.MemoryAuthStore.UpdateCredentialAfterAuthentication | apps/auth-service/src/memory-store.ts:194-218 | An unrevoked credential whose counter is as read before and advances gets the new counter; otherwise the verification fails and nothing changes |
| AuthStore.MemoryAuthStore.RevokeCredential | apps/auth-service/src/memory-store.ts:220-253 | The credential is stamped, its bundles go and all sessions of the account are revoked, unless it is unavailable or the last one in use |
| AuthStore.MemoryAuthStore.PutSession | apps/auth-service/src/memory-store.ts:255-260 | A session with a fresh identifier is stored for any account there is, pending ones included; otherwise the verification fails |
| AuthStore.MemoryAuthStore.RotateSession | apps/auth-service/src/memory-store.ts:267-287 | A live session of the given account gets new secrets and keeps its step-up time unless stepping up; otherwise a session is required and nothing changes |
| AuthStore.MemoryAuthStore.RevokeSession | apps/auth-service/src/memory-store.ts:289-294 | A session that is not yet revoked is stamped once; an unknown or revoked one stays |
| AuthStore.MemoryAuthStore.PutCeremony | apps/auth-service/src/memory-store.ts:50-58 | A fresh ceremony is stored if the account it names, if any, exists; otherwise the request is invalid |
| AuthStore.MemoryAuthStore.DeleteAccountCascade | apps/auth-service/src/memory-store.ts:384-398 | An account goes with everything of its own and nothing else |
| AuthStore.MemoryAuthStore.CleanupExpired | apps/auth-service/src/memory-store.ts:303-359 | A pass deletes the oldest batch of abandoned accounts with everything of theirs, then of stale ceremonies, then of stale sessions, and reports their numbers; invalid bounds change nothing |
| AuthStore.OldestBatch | apps/auth-service/src/memory-store.ts:306-317 | The chosen keys are the oldest, as many as the batch takes |
| NetworkLock.RunsAreSound | apps/indexer/src/memory-projection.ts:3163-3191 | Every interleaving of acquiring and releasing, repeated releases included, keeps the queue sound |
| NetworkLock.MutualExclusion | apps/indexer/src/memory-projection.ts:3151-3191 | A network has at most one holder, and a mutex exactly while it has one |
| NetworkLock.FirstComeFirstServed | apps/indexer/src/memory-projection.ts:3163-3175 | Tickets are granted in the order of the requests, and those not granted are all waiting |
| NetworkLock.RepeatedReleaseIsHarmless | apps/indexer/src/memory-projection.ts:3177-3181 | Whatever else happened since its first use, using a release handle again changes nothing |
| NetworkLock.EveryWaiterIsServed | apps/indexer/src/memory-projection.ts:3182-3190 | In every continuation of a run, whatever is requested and released in between, the waiter at position i has been granted the lock if and only if more than i holds of its network have ended |
| NetworkLock.NetworkMutexes.AcquireNetworkLock | apps/indexer/src/memory-projection.ts:3163-3175 | A free network gets a new mutex and a grant at once; at a locked one the request joins the end of the queue |
| NetworkLock.NetworkMutexes.ReleaseNetworkLock | apps/indexer/src/memory-projection.ts:3177-3191 | The first use of a handle grants the lock to the head of the queue, or deletes the entry if it still is the one of this mutex; further uses do nothing |
| Ranking.RankRecommendations | apps/feed-service/src/mode-ranking.ts:107-131 | The ranking is a permutation in which each item beats all later ones under the context of all earlier ones, with the score it had there |
| Ranking.SelectBest | apps/feed-service/src/mode-ranking.ts:114-122 | The inner loop finds the one item that beats all others |
| Ranking.GreedyIsUnique | apps/feed-service/src/mode-ranking.ts:107-161 | There is only one greedy order of items with distinct identifiers |
| Ranking.RankingIgnoresInputOrder | apps/feed-service/src/mode-ranking.ts:107-161 | Items and scores of a ranking are the same for every order of the input |
| Ranking.ChronologicalIsGreedy | apps/feed-service/src/mode-ranking.ts:78-105 | Newest-first order is the greedy order of a score that never distinguishes |
| Ranking.AddToRankingContext | apps/feed-service/src/scoring.ts:220-237 | The next context counts author, distinct topics and duplicate cluster once more |
| Ranking.ContextTallies | apps/feed-service/src/scoring.ts:220-237 | A context is the tally of the chosen items, feature by feature |
| Ranking.ContextIgnoresOrder | apps/feed-service/src/scoring.ts:220-237 | The context does not depend on the order in which items were chosen |
| FeedEngine.FilterItems | apps/feed-service/src/engine.ts:131-171 | The eligible items stay in order, the counters count the others by their first failing control, and together they are all items |
| FeedEngine.PageContinues | apps/feed-service/src/engine.ts:70-92 | A page is served exactly when its cursor fits the request; it then continues where the cursor stands, and the cursor it issues stands at its end |
| FeedEngine.PagesAreTheRanking | apps/feed-service/src/engine.ts:70-92 | Following cursors gives the ranked list from its start, for all page sizes, if and only if the cursor after every item but the last fits into a request |
| FeedEngine.CursorAccepted | apps/feed-service/src/engine.ts:173-190 | An issued cursor is accepted at the offset it was issued for exactly when its text fits into a request, and is otherwise refused as too long |
| FeedEngine.WellFormedPages | apps/feed-service/src/cursor.ts:33-42 | When no identifier has an unpaired surrogate or a control character, every sequence of page sizes gives the ranked list from its start, and all of it after enough pages |
| FeedEngine.UnpairedSurrogatesDoNotFit | apps/feed-service/src/schemas.ts:200 | An identifier of 256 unpaired surrogates, which an item may have, makes a cursor that the next request refuses |
| FeedEngine.RankingIsUnique | apps/feed-service/src/engine.ts:78-80 | The eligible items have only one greedy ranking |
| FeedEngine.RankFeed | apps/feed-service/src/engine.ts:70-92 | The page, or the refusal of the cursor, is that of the one greedy ranking of the eligible items; eligible and filtered items add up to all |
| Borsh.ReaderInvertsWriter | apps/indexer/src/anchor-events.ts:1150-1356 | For every list of field kinds the reader accepts exactly what the writer produces and returns the values that were written |
| Borsh.ReadsWritten | apps/indexer/src/anchor-events.ts:1155-1349 | Reading a written field gives its value and leaves what follows |
| Borsh.ReadWasWritten | apps/indexer/src/anchor-events.ts:1155-1349 | What a field was read from is what the writer writes for its value |
| Borsh.BorshReader.TakeBytes | apps/indexer/src/anchor-events.ts:1155-1162 | Bytes are taken at the offset, which moves past them, or the data ended early |
| Borsh.BorshReader.TakeNumber | apps/indexer/src/anchor-events.ts:1184-1191 | The loop puts little-endian bytes together to the number they write |
| Borsh.BorshReader.TakeField | apps/indexer/src/anchor-events.ts:1164-1349 | Every field kind is read as its meaning says |
| Borsh.BorshReader.TakeEvent | apps/indexer/src/anchor-events.ts:1351-1355 | The fields are read one after another and must use up the data |
| AnchorEvents.DecodingInvertsEncoding | apps/indexer/src/anchor-events.ts:566-1134 | For every event kind, data decodes to an event if and only if it is the encoding of that event |
| AnchorEvents.DiscriminatorsDiffer | apps/indexer/src/anchor-events.ts:8-44 | No two of the 33 events share a discriminator |
| AnchorEvents.DecodeAnchorEventLog | apps/indexer/src/anchor-events.ts:566-1134 | The moving reader decodes every entry as specified |
| Base58.DecodeEncoded | apps/wallet-alpha/protocol.js:109-162 | Decoding printed bytes gives them back if and only if there are bytes and the text has at most 64 characters |
| Base58.EncodeDecoded | apps/wallet-alpha/protocol.js:109-162 | Printing decoded text gives the same text, leading ones included |
| Base58.RebaseBack | apps/wallet-alpha/protocol.js:114-161 | Rewriting digits in another base and back, leading zeros kept apart, gives the same digits |
| Base58.EncodeBase58 | apps/wallet-alpha/protocol.js:138-162 | The loops print the digits in base 58 behind one character for every leading zero |
| Base58.DecodeBase58 | apps/wallet-alpha/protocol.js:109-136 | The loops give the bytes of the number behind one zero for every leading one, or refuse the text |

## Left out

- Payment configuration, offerings, settlements and entitlements: their branches are field-by-field comparisons, and the allocation arithmetic is not part of this model.
- Dead letters, deferral records, retry times and the checkpoint: operational metadata beside the projected maps.
- MemoryStore.MemoryProjectionStore.DeferManifestEvent: deferral records are not kept, so the refusal to defer an event whose dead letter is already terminal is left out.
- Suppression.SuppressedReplayFeedsTheSame: a feed is the map from object identifiers to the records it would show; sorting them, the limit and the before-cursor, which depend on those records only, are left out.
- Network and program identifiers: one network with one program, so keys carry no network and the cross-network checks are left out.
- `clearProjection`, directories, public search and the list queries: filters and sorts over the maps.
- Profile privacy projection, manifest URIs, object content and other fields that are stored as they come: carried as opaque values or dropped.
- MemoryStore.MemoryProjectionStore.AddressIsTaken: the code compares the first membership found at the address with the current record; the model asks whether any other membership holds it. Both agree in every reachable state, where an address belongs to one membership.
- MemoryStore.MemoryProjectionStore.RebuildProjection: which of several errors a refused rebuild reports is not stated, because sorting an ambiguous log is not determined. The raw log is a sequence in order of ingestion, as the insertion order of the code's map gives it.
- MemoryStore.MemoryProjectionStore.ApplySocialEvent: authority and address fields of follow and block edges are not stored.
- OpenIndexing.OpenIndexer.Rebuild: fetching a manifest is a function of the event; failures of the network are left out.
- AuthStore.MemoryAuthStore.CleanupExpired: times are instants, so unparsable timestamps are left out, and ties are broken by the code units of the identifiers rather than by locale.
- AuthStore.MemoryAuthStore.CreateProvisionalAccount: records are kept under their identifiers and do not repeat them; transports of credentials are left out. Cloning on the way in and out is not needed for values.
- AuthInvariant.CountersRise: counters are integers within the safe range; fractions are left out.
- Ranking.RankRecommendations: scores are real numbers given by an arbitrary function of item and context, so the rounding of the score terms is left out; trending order is the same loop with another score.
- Third-party order and the explanation texts of ranked items: order given by the caller, and wording.
- FeedEngine.PagesAreTheRanking: cursors are values together with the exact length of their text; that base64url and JSON decoding invert encoding is taken for granted, and fingerprints are given strings.
- FeedEngine.RankFeed: recommended mode only; the dispatch by mode and the explanations are left out.
- FeedEngine.FilterItems: the normalization of text and keywords and the choice of items by mode are done before; the counter of items outside the mode is left out.
- AnchorEvents.DecodingInvertsEncoding: starts from the bytes of a log entry, with strings as raw bytes; base64 and UTF-8 are left out.
- AnchorEvents.DecodeAnchorEventLog: the same, and the surrounding transaction logs are not parsed.
- Borsh.ReaderInvertsWriter: strings are length-prefixed bytes; UTF-8 validation and Base58 printing of keys are left out, and the shifts of the code are the same numbers in base 256.
- WebAuthn, key wrapping, HTTP, databases, configuration and user interfaces.
