# Verified model of the iroh-beekem core

iroh-beekem is a collaborative workspace without a server: devices exchange signed capability
certificates, group-key operations and encrypted document chunks in any order, and every device is
meant to end up in the same place. This project models the I/O-free core that makes that so, and
proves what it promises, over every certificate set and every run.

`dafny verify dfyconfig.toml` checks everything.

## What is modelled

**The capability closure** (`Certificates`, `Closure`, `ClosureTheorems`, `ClosureGrowth`, `Roles`,
`Escalation`, `Holdings`, `CapabilityStore`). The in-place loop of `recompute` is a method proved
equal to `Settle`; its rules are also steps of a transition system, and the theorems quantify over
all justified traces of it. The iteration order of the loop matters exactly when some reachable state
allows two bindings to give one uncertified device to different users. Freedom from that
(`ConflictFree`) is the exact condition both for independence of order and for growth that never
retracts, from any smaller set; agreement of all bindings per device implies it. Between two given
sets nothing is retracted exactly when no device changes hands, and under the same condition, and no
other, certificates from users who were never admins change nothing.

**The operation merge machine** (`MergeMachine`, `MergeLaws`, `MergeConfluence`, `Authority`,
`CgkaController`).
Operations arrive in any order through a bounded parking queue and are judged against the closure.
Confluence holds exactly when no operation can be applied on the word of an `Add` outside its own
history.

**The workspace state machine** (`IngestMachine`, `IngestLaws`, `IngestConfluence`,
`IngestExactness`, `WorkspaceInbox`, `Publishing`, `PublishingLaws`, `WorkspacePublisher`,
`WorkspaceState`, `Namespace`, `Outbox`, `OutboxLaws`). The pending-chunk queue waits on two graphs; publishing alternates deltas and full exports; namespaces
rotate by `(epoch, digest)`; effects leave in causal order. Interleavings agree exactly when whatever
twins can shadow together is harmless to lose, and deltas refine full publishing exactly where no
full chunk is owed.

**Small exact pieces** (`Cooldown`, `Asset`). A pruning rate limiter against one that never forgets,
and asset segmentation with ordered part keys.

Where the source updates fields in place the model is a class whose methods are proved against a
function of the old state; the theorems are about those functions. Each such function is also tied to
laws that do not name it: who owns which device and who voted for what, which events brought which
operations into a document, what a request must put on the wire.

## Abstractions

- A 32-byte identity or digest is the number its bytes spell; only equality and order are used.
- Digests are collision-free: `issued` is everything ever signed, filed by digest, and a certificate
  that verifies is the one filed there. Whether its tag and its signature check out is a field.
- An operation contains its predecessors, which is what naming them by a collision-free hash means.
  The tree library is the set of applied operations; `derivable(op)` says whether this node can
  derive the epoch that `op` established, and each operation comes with what it does to the root key.
- A document is the set of its operations; a chunk adds some on top of the ones it depends on, all or
  nothing. `intact` says whether authentication succeeds.
- A reader is owed a full chunk of a document in a namespace once a restore brings back a recorded
  version of it after the document was deleted there, and was not sent anew or was sent anew with
  less in it. Any full publish of it there, or its deletion, settles that.
- A sealed segment opens under exactly the key and additional data it was sealed with.
- `Justified` speaks of causal runs over the offered operations; `AddedInHistoryIsJustified` gives the
  condition a reader can check operation by operation.

## Where the code and its comments differ

- crates/iroh-beekem-core/src/state.rs:1257-1261 says the first publish of each document after a
  restart is full. The code restores the published versions and resets only the counters, so it is a
  delta whenever the snapshot had the document published (`FirstEditAfterRestart`), and restarts can
  stretch a delta run without limit (`RestartsExtendDeltaRuns`).
- crates/iroh-beekem-core/src/capability.rs:654-660 says that gaining certificates can only add to the
  executed proposals. A second binding of one device with a smaller digest can void an executed
  proposal and shrink `ever_admin` (`SecondBindingCanDemote`);
  `GrowthRetractsNothingIffConflictFree` is the exact condition.
- crates/iroh-beekem-core/src/capability.rs:818-820 says that only an admin can get a second binding
  of a device admitted. The loop admits any binding whose issuer speaks for the user it names, so a
  member who was never an admin can claim an admin's device for itself, and with a smaller digest it
  wins (`OutsiderCanDemote`). It gains no standing by it (`OutsidersGainNothing`);
  `OutsidersChangeNothingExactlyWhen` is the exact condition for no verdict to change.
- crates/iroh-beekem-core/src/state.rs:3417-3420 says that certificates arriving alone may make a
  parked operation admissible. A parked operation waits for its predecessors only, and one that was
  refused is not kept, so from a settled queue they unlock nothing (`CertificatesUnlockNothing`).
- crates/iroh-beekem-core/src/keys.rs:984-989 says a legitimate issuer's `Add` is necessarily among
  the operations already accepted. That is so unless the operation is vouched for only from outside
  its own history (`LateOperationsDiverge`).

## Model

| member | source | states |
|---|---|---|
| CapabilityStore.TryBind | crates/iroh-beekem-core/src/capability.rs:812-844 | A binding is admitted exactly when its device has no user yet and its issuer speaks for the named user or for an admin; the step is the closure's `Bind` rule |
| CapabilityStore.TryExecute | crates/iroh-beekem-core/src/capability.rs:852-873 | A proposal is recorded exactly when its proposer's user was ever an admin and at least threshold distinct such users approved it |
| CapabilityStore.TryPromote | crates/iroh-beekem-core/src/capability.rs:875-904 | An admin grant promotes exactly when its issuer's user was ever an admin and the grant is authorised under the threshold |
| CapabilityStore.TryEach | crates/iroh-beekem-core/src/capability.rs:811-904 | One inner loop over one kind of certificate is a sweep of its rules, and its flag says exactly whether anything changed |
| CapabilityStore.RunClosure | crates/iroh-beekem-core/src/capability.rs:797-909 | The in-place fixpoint loop terminates with exactly `Settle`, the value all closure theorems are about |
| CapabilityStore.RunRoles | crates/iroh-beekem-core/src/capability.rs:941-1013 | The two last-writer loops compute exactly `ResolveRoles` |
| CapabilityStore.Derive | crates/iroh-beekem-core/src/capability.rs:797-926 | `recompute` leaves threshold, closure and roles at their specified values for the certificates held |
| CapabilityStore.Store.constructor | crates/iroh-beekem-core/src/capability.rs:672-690 | A new store holds nothing and its derived fields are those of the empty set under its founder |
| CapabilityStore.Store.Recompute | crates/iroh-beekem-core/src/capability.rs:797-926 | Restores the link between the derived fields and the maps without touching the maps |
| CapabilityStore.Store.Stage | crates/iroh-beekem-core/src/capability.rs:740-751 | Tag before signature, then file by digest; the reply says whether the digest was new, and an invalid certificate changes nothing |
| CapabilityStore.Store.Insert | crates/iroh-beekem-core/src/capability.rs:706-712 | The derived fields match the held certificates on return, although recomputation is skipped when nothing was new |
| CapabilityStore.Store.StageAll | crates/iroh-beekem-core/src/capability.rs:721-733 | Files a bundle; the count is the exact growth of the store and zero means nothing moved |
| CapabilityStore.Store.Extend | crates/iroh-beekem-core/src/capability.rs:721-738 | A bundle equals offering its certificates one by one; an invalid entry costs only itself; one recomputation suffices |
| CapabilityStore.Store.AllCertificates | crates/iroh-beekem-core/src/capability.rs:757-767 | The list handed out rebuilds this very store when offered to an empty one |
| Certificates.ThresholdIsTheGreatestPolicy | crates/iroh-beekem-core/src/capability.rs:1021-1028 | The threshold bounds every policy of the founder and, above one, is one of them |
| Closure.PremiseIsMonotone | crates/iroh-beekem-core/src/capability.rs:1030-1092 | No rule's premise can be lost by learning more |
| Closure.SettleIsReachableAndClosed | crates/iroh-beekem-core/src/capability.rs:785-909 | The exit state is reachable by justified steps from the founder's axiom and enables no further rule |
| ClosureTheorems.LoopTerminatesWithinCertificates | crates/iroh-beekem-core/src/capability.rs:785-909 | At most bindings + proposals + grants rounds make progress, for every certificate set |
| ClosureTheorems.ClosureIsGrounded | crates/iroh-beekem-core/src/capability.rs:785-909 | One finite chain of distinct certificates, each justified by the ones before it, accounts for every certified device, every admin and every executed proposal |
| ClosureTheorems.QuorumIsExact | crates/iroh-beekem-core/src/capability.rs:849-873 | At loop exit a proposal is executed if and only if it is filed, its issuing device belongs to an ever-admin, and there is a set of at least threshold user ids, all ever-admins, each of which approved it from a device of its own |
| ClosureTheorems.AdminsAreExact | crates/iroh-beekem-core/src/capability.rs:875-904 | A user is in `ever_admin` if and only if it is the founder, or an ever-admin's device granted it Admin and the threshold is one, that admin is the founder, or an executed proposal says the same |
| ClosureTheorems.DevicesAreExact | crates/iroh-beekem-core/src/capability.rs:812-844 | A device is certified if and only if it is the founder's, or a certified device whose user is the one named or was ever an admin issued a binding for it; its user is one so named; the founder's device is the founder's |
| ClosureTheorems.AgreementIsConflictFree | crates/iroh-beekem-core/src/capability.rs:812-834 | Agreement of all bindings per device, founder seed included, rules conflicts out |
| ClosureTheorems.ClosedDominates | crates/iroh-beekem-core/src/capability.rs:797-926 | Without conflicts, anything any order of rules reaches lies below every exit state |
| ClosureTheorems.OrderIndependenceIsConflictFreedom | crates/iroh-beekem-core/src/capability.rs:797-926 | The result is independent of iteration order if and only if no reachable state lets two bindings disagree about an uncertified device |
| ClosureTheorems.SettleIsBelowEveryModel | crates/iroh-beekem-core/src/capability.rs:797-926 | The loop derives nothing beyond any state closed under the binding, quorum and admin-grant rules, for every certificate set |
| ClosureTheorems.SettleIsLeastModelIffOneExists | crates/iroh-beekem-core/src/capability.rs:797-926 | The loop's result is the least such state exactly when one exists at all |
| ClosureTheorems.SettleIsTheLeastModel | crates/iroh-beekem-core/src/capability.rs:797-926 | Under binding agreement the loop's result is the least such state |
| ClosureGrowth.GrowthRetractsNothingIffConflictFree | crates/iroh-beekem-core/src/capability.rs:654-660 | From every smaller set with the same threshold, growth removes no attribution, admin or executed proposal, if and only if the larger set is free of conflicts |
| ClosureGrowth.GrowthRetractsExactlyWhenADeviceChangesHands | crates/iroh-beekem-core/src/capability.rs:654-660 | For any set and any larger one with the same threshold: no attribution, admin or executed proposal is lost if and only if no device certified under both belongs to different users |
| ClosureGrowth.WithoutRivalsNoneChangesHands | crates/iroh-beekem-core/src/capability.rs:812-834 | If no binding of the larger set claims a device certified under the smaller one for another user, none changes hands: a check on the old verdict and the new bindings alone |
| ClosureGrowth.QuorumVerdictNeverRetracts | crates/iroh-beekem-core/src/keys.rs:1084-1104 | From one set to a larger one with the same threshold under which no device changes hands, the quorum verdict a receiver reads does not go from yes to no |
| ClosureGrowth.RebindingCutsOff | crates/iroh-beekem-core/src/capability.rs:812-834 | If the smallest binding gives a device to a user nobody promoted, admins made only by that device and proposals it issued are void |
| ClosureGrowth.SecondBindingCanDemote | crates/iroh-beekem-core/src/capability.rs:812-834 | For every founder a concrete second binding takes a user out of `ever_admin` and a proposal out of `executed`, so the condition above is needed |
| Roles.ConsideringKeepsTheGreatest | crates/iroh-beekem-core/src/capability.rs:955-1010 | The update rule keeps, for each user, the greatest claim considered so far, ties falling to the earlier one |
| Roles.RoleIsTheGreatestClaim | crates/iroh-beekem-core/src/capability.rs:941-1013 | A user's role is that of the greatest (seq, digest) among counting grants, executed `SetRole`s and the founder's seed, and a user without a claim has no role |
| Roles.FounderIsAdminUntilNamed | crates/iroh-beekem-core/src/capability.rs:950-956 | The founder holds Admin until a grant that stands or a decision with a rank above zero names it |
| Roles.LatestGrantDecides | crates/iroh-beekem-core/src/capability.rs:958-990 | The grant with the greatest (seq, digest) among those that stand and the decisions about its subject sets the subject's role |
| Roles.LatestDecisionDecides | crates/iroh-beekem-core/src/capability.rs:992-1010 | An executed `SetRole` with the greatest (seq, digest) sets its user's role |
| Roles.RolesNeedANaming | crates/iroh-beekem-core/src/capability.rs:941-1013 | A user has a role if and only if it is the founder or a grant that stands or an executed `SetRole` names it |
| Roles.AdminRoleHasASource | crates/iroh-beekem-core/src/capability.rs:941-1013 | Whoever holds the Admin role is in `ever_admin` or was named Admin by an executed proposal |
| Escalation.OutsidersChangeNothingExactlyWhen | crates/iroh-beekem-core/src/capability.rs:812-1013 | Certificates issued only by devices that are uncertified or belong to users never admin leave threshold, `ever_admin`, `executed`, every role and every attribution as they were, and certify only devices of users who owned an issuing device, if and only if no certified device changes hands |
| Escalation.OutsidersWithoutRivalClaims | crates/iroh-beekem-core/src/capability.rs:812-1013 | That is so when no binding of the larger set claims a device certified before for another user |
| Escalation.OutsidersCannotEscalate | crates/iroh-beekem-core/src/capability.rs:812-1013 | It is also so when the larger set is free of conflicts, which agreement of all bindings implies; an outsider's own rival binding can break this condition |
| Escalation.OutsidersGainNothing | crates/iroh-beekem-core/src/capability.rs:812-904 | While no binding held before claims a certified device for another user, and whatever rival bindings arrive: outsiders make no admin, pass no proposal, move no device to an admin and leave the threshold alone |
| Escalation.OutsiderCanDemote | crates/iroh-beekem-core/src/capability.rs:812-834 | For every founder, a member who was never an admin binds an admin's device to itself and an admin and an executed removal are gone: some condition on rival bindings is needed |
| Escalation.AdminRoleWithoutEverAdmin | crates/iroh-beekem-core/src/capability.rs:875-904 | An executed `SetRole` gives the Admin role without `ever_admin`: only grants feed that set |
| Holdings.PutCounts | crates/iroh-beekem-core/src/capability.rs:771-777 | Filing a certificate grows the store by one exactly when its digest was not filed |
| Holdings.ReplyTellsTheOutcome | crates/iroh-beekem-core/src/capability.rs:581-603 | A wrong tag is reported before a bad signature and neither changes anything; news is exactly a certificate the store lacked and now holds |
| Holdings.OfferStaysWithin | crates/iroh-beekem-core/src/capability.rs:706-751 | With collision-free digests a certificate already filed changes nothing |
| Holdings.OfferAllHolds | crates/iroh-beekem-core/src/capability.rs:721-751 | After a bundle the store holds exactly what it held and the certificates of the bundle that verify |
| Holdings.OrderAndBatchingDoNotMatter | crates/iroh-beekem-core/src/capability.rs:706-751 | Any two histories of insert and extend calls offering the same certificates leave the same maps, hence the same derived fields |
| Holdings.CertificatesAreHoldings | crates/iroh-beekem-core/src/capability.rs:757-767 | The listed certificates are exactly the held ones |
| Holdings.RestartRebuildsTheStore | crates/iroh-beekem-core/src/keys.rs:504-546 | Feeding `certificates()` to a new store gives back the same store, so a restart keeps every verdict |
| MergeMachine.MergeFacts | crates/iroh-beekem-core/src/keys.rs:976-1036 | One merge applies, queues or drops, never two of these; evictions and queue length are exact |
| MergeLaws.VerdictsAreOrdered | crates/iroh-beekem-core/src/keys.rs:976-1036 | Missing predecessors defer, then a stranger is unauthorised, then a missing capability uncertified, then a repeat a duplicate, and the rest is applied |
| MergeMachine.DrainIsSound | crates/iroh-beekem-core/src/keys.rs:1130-1162 | A drain evicts nothing, loses track of no operation, keeps the applied set causally supported and leaves nothing that could be judged |
| MergeMachine.DeliveryIsSound | crates/iroh-beekem-core/src/state.rs:3391-3413 | The same over a whole delivery, which also accounts for the operation it delivered |
| MergeMachine.DrainOfParkedOperations | crates/iroh-beekem-core/src/keys.rs:1130-1162 | `merge_pending` ends within parked + 1 rounds, never evicts, invents nothing, leaves no operation whose predecessors are present, and whatever left the queue was applied, known or refused |
| MergeLaws.ParkingLosesOnlyTheOldest | crates/iroh-beekem-core/src/keys.rs:617-623 | Parking appends; a full queue loses its oldest operation and nothing else, and counts it |
| MergeLaws.SettledDrainIsIdle | crates/iroh-beekem-core/src/keys.rs:1130-1162 | A drain of a settled queue changes nothing, whatever the verdicts |
| MergeLaws.RosterIsExplained | crates/iroh-beekem-core/src/keys.rs:1004-1027 | Over any run: whoever joined `current_members` was added and whoever left was removed by an operation the run applied; whoever was only added is in it, whoever was only removed is not; and it stays within `known_members` |
| MergeConfluence.DeliveryOrderDoesNotMatter | crates/iroh-beekem-core/src/keys.rs:956-1162 | When no operation can be applied on the word of an `Add` outside its own history, any two loss-free deliveries of the same operations, in any order and repetition, end with the same applied set, known members and parked operations |
| MergeConfluence.AddedInHistoryIsJustified | crates/iroh-beekem-core/src/keys.rs:984-997 | It is enough that each issuer is known, is never added, or has an `Add` among the operation's ancestors |
| MergeConfluence.LateOperationsDiverge | crates/iroh-beekem-core/src/keys.rs:984-997 | An operation vouched for only from outside its own history makes two loss-free deliveries end differently |
| MergeConfluence.ConfluenceIsJustification | crates/iroh-beekem-core/src/keys.rs:956-1162 | From an empty queue, all loss-free deliveries of a set the queue can hold agree if and only if no operation is ever so vouched for |
| MergeConfluence.WaitingVoucherDecides | crates/iroh-beekem-core/src/keys.rs:1130-1162 | With operations already parked the condition is not exact: a waiting voucher is applied by the drain that judges what it vouches for, so all deliveries agree although the condition fails |
| MergeConfluence.CausalRunIsApplied | crates/iroh-beekem-core/src/keys.rs:976-1036 | Operations sent in causal order by members go straight in and park nothing |
| Authority.PeersWithTheSameCertificatesConverge | crates/iroh-beekem-core/src/keys.rs:956-1117 | With every shipped proof already held and no operation so vouched for, the real `authorize` verdict gives the same confluence for whole messages |
| Authority.ReceiveAppliesOnlyCertified | crates/iroh-beekem-core/src/keys.rs:1048-1117 | Everything a message makes applied was authorised by the certificates held at that moment |
| Authority.AuthorityIsExact | crates/iroh-beekem-core/src/keys.rs:1048-1117 | The check passes an `Add` iff the leaf is certified and the issuer's device has the same owner or speaks for a user with the Admin role; a `Remove` iff the owner is the same, or the issuer speaks for an Admin and the threshold is one or that many distinct users voted for exactly it; an `Update` always |
| Authority.MergedExactlyWithAuthority | crates/iroh-beekem-core/src/keys.rs:956-1036 | With its predecessors here and its issuer known, a new operation is applied if and only if it has that authority under the certificates held once its proof is absorbed |
| Authority.EveryMergedOperationHadAuthority | crates/iroh-beekem-core/src/keys.rs:956-1117 | Over any run of operations and certificates, without conditions: whatever the run merged had that authority under the certificates held when it was merged |
| Authority.BackingNeverRetracts | crates/iroh-beekem-core/src/keys.rs:1069-1105 | From one set to a larger one with the same threshold under which no device changes hands, what backed a removal keeps backing it |
| Authority.EveryMergedRemovalHadItsQuorum | crates/iroh-beekem-core/src/keys.rs:1069-1105 | In particular a merged removal was of a device with the issuer's own owner, or the threshold was one, or an ever-admin proposed exactly it and a set of at least threshold users, all ever-admins, approved it |
| Authority.EveryMergedRemovalHasItsQuorum | crates/iroh-beekem-core/src/keys.rs:1069-1105 | If the threshold stayed the same above one and no device changed hands during the run, that backing is still there under the certificates held at the end |
| Authority.ConflictFreeRunsKeepUsers | crates/iroh-beekem-core/src/capability.rs:812-834 | No device changes hands during a run that ends on a set free of conflicts |
| Authority.CertificatesUnlockNothing | crates/iroh-beekem-core/src/state.rs:3446-3450 | From a settled queue, certificates that arrive alone move no parked operation: those wait for predecessors only |
| CgkaController.CgkaController.Create | crates/iroh-beekem-core/src/keys.rs:315-350 | A founded workspace knows its founder and has applied the founder's own `Add` |
| CgkaController.CgkaController.ParkOp | crates/iroh-beekem-core/src/keys.rs:617-623 | The oldest operation is evicted and counted when the queue is full |
| CgkaController.CgkaController.IsAuthorized | crates/iroh-beekem-core/src/keys.rs:1048-1117 | The check read off the store's derived fields is the verdict of the certificates held |
| CgkaController.CgkaController.Assess | crates/iroh-beekem-core/src/keys.rs:976-1001 | Predecessors, membership, authority, repetition, in that order, read off the fields |
| CgkaController.CgkaController.MergeChecked | crates/iroh-beekem-core/src/keys.rs:976-1036 | Predecessors, membership, authority, duplicate, in that order; the outcome and the new state are those of the specification |
| CgkaController.CgkaController.RetryRound | crates/iroh-beekem-core/src/keys.rs:1136-1156 | A round retries every candidate in order and counts exactly what was applied |
| CgkaController.CgkaController.DrainParked | crates/iroh-beekem-core/src/keys.rs:1130-1162 | The drain loop computes `MergePending`, evicts nothing and returns the exact number applied |
| CgkaController.CgkaController.OnControlOp | crates/iroh-beekem-core/src/state.rs:3403-3405 | Signature, proof, merge, drain of the parked operations: the controller moves as `Receive` says, and the outcome is the specified one |
| CgkaController.CgkaController.OnCertsArrived | crates/iroh-beekem-core/src/state.rs:3448-3449 | Certificates alone retry the parked operations exactly when one of them was new, and the count of new ones is exact |
| IngestMachine.RoomIsMade | crates/iroh-beekem-core/src/state.rs:3780-3791 | Eviction drops a prefix of the queue, counts it exactly and stops as soon as the chunk fits |
| IngestMachine.ParkingStaysBudgeted | crates/iroh-beekem-core/src/state.rs:3780-3797 | Parking keeps the byte total exact and the queue within count and budget, one oversize chunk alone excepted |
| IngestLaws.ParkingAdmitsTheChunk | crates/iroh-beekem-core/src/state.rs:3780-3797 | A chunk enters at the end of the queue with no drains behind it; what it displaces is a counted prefix of the queue |
| IngestMachine.DrainAccounts | crates/iroh-beekem-core/src/state.rs:3820-3874 | Chunks before a drain = merged + unreadable + corrupt + chunks left; the drain evicts nothing and stays within budget |
| IngestLaws.DrainReports | crates/iroh-beekem-core/src/state.rs:3820-3874 | A drain asks again, in queue order, for exactly the chunks whose operation is here and whose epoch this node cannot derive, by document and epoch, and counts them; it counts exactly the damaged ones; it reports as many merges as it makes |
| IngestLaws.WaitingChunksAreAskedFor | crates/iroh-beekem-core/src/state.rs:3836-3856 | A chunk left waiting was waiting before and is older, up to the ceiling; if its key is in hand and it waited `MAX_DEP_WAIT_DRAINS` drains, this very drain asked for its document's history |
| IngestLaws.DrainSpeaksOfItsChunks | crates/iroh-beekem-core/src/state.rs:3826-3869 | Every effect of a drain names the document, and the epoch asked for, of a chunk that was in the queue and that it is true of: readable and authentic for a merge or a missing history, underivable for a request |
| IngestMachine.ForgettingStaysBudgeted | crates/iroh-beekem-core/src/state.rs:2938-2947 | Deletion keeps the accounting and leaves nothing of the document in the queue |
| IngestLaws.ForgettingDropsJustThat | crates/iroh-beekem-core/src/state.rs:2930-2947 | A deletion drops the document and each of its chunks, and every other document and chunk stays |
| IngestMachine.QueueIsAlwaysBudgeted | crates/iroh-beekem-core/src/state.rs:2416-2433 | Every arrival keeps the accounting |
| IngestConfluence.NothingReadableWaits | crates/iroh-beekem-core/src/state.rs:3820-3904 | After every event of every run no pending chunk is both decryptable and dependency-complete |
| IngestConfluence.LosslessInterleavingsAgree | crates/iroh-beekem-core/src/state.rs:3391-3413 | Two interleavings of the same key operations and chunks that lose no chunk end with the same key plane, documents and pending chunks |
| IngestConfluence.IdentifiedChunksAreNotLost | crates/iroh-beekem-core/src/state.rs:2424-2431 | Without eviction, and when chunks of one document with one reference and epoch are the same chunk, nothing is lost |
| IngestConfluence.InterleavingDoesNotMatter | crates/iroh-beekem-core/src/state.rs:3391-3413 | So any two interleavings of the same key operations and such chunks, without eviction, end the same |
| IngestConfluence.FittingRunsEvictNothing | crates/iroh-beekem-core/src/state.rs:3780-3797 | From an empty queue, chunks that fit the budget all at once are never evicted, however often and in whatever order they come |
| IngestConfluence.InterleavingsAgreeExactlyWhenNothingIsLost | crates/iroh-beekem-core/src/state.rs:2416-2433 | From an empty queue, for chunks that fit all at once: all interleavings agree if and only if none of them loses a chunk |
| IngestExactness.LostWasShadowed | crates/iroh-beekem-core/src/state.rs:2424-2431 | A chunk that is neither waiting, merged nor useless at the end of a run was shadowed by a twin that is, and that had to wait at the start |
| IngestExactness.InterleavingsAgreeExactlyWhenLossIsHarmless | crates/iroh-beekem-core/src/state.rs:2416-2433 | From an empty queue, for chunks that fit all at once, judged by the start, the chunks and where the key plane ends: all interleavings agree if and only if, for every set of chunks that can be shadowed together by twins that have to wait, each is useless to this node or brought in full by the others |
| IngestConfluence.TwinsAgreeExactlyWhen | crates/iroh-beekem-core/src/state.rs:2424-2431 | Parked chunks are told apart by reference and epoch only: two such chunks waiting for one key leave the same documents in either order if and only if both would add the same operations and open the document alike, which a damaged copy does not |
| WorkspaceInbox.RetainOthers | crates/iroh-beekem-core/src/state.rs:2940-2947 | The retain loop keeps the other documents' chunks in order and its running total stays exact despite saturating subtraction |
| WorkspaceInbox.WorkspaceInbox.Park | crates/iroh-beekem-core/src/state.rs:3780-3797 | The eviction loop and the push compute `ParkChunk` within budget |
| WorkspaceInbox.WorkspaceInbox.TryApply | crates/iroh-beekem-core/src/state.rs:3884-3904 | Key, then authentication, then dependencies; the document is opened as soon as the chunk deciphers |
| WorkspaceInbox.WorkspaceInbox.OnePass | crates/iroh-beekem-core/src/state.rs:3826-3869 | One pass over the taken queue, its counters and its repair requests in order |
| WorkspaceInbox.WorkspaceInbox.DrainPending | crates/iroh-beekem-core/src/state.rs:3820-3874 | The take-and-requeue loop computes `Drain` and stays within budget |
| WorkspaceInbox.WorkspaceInbox.OnChunkArrived | crates/iroh-beekem-core/src/state.rs:2416-2433 | A chunk already parked is not parked twice; every arrival drains |
| WorkspaceInbox.WorkspaceInbox.ForgetDocument | crates/iroh-beekem-core/src/state.rs:2930-2947 | Deleting a document forgets it and everything parked for it |
| WorkspaceState.WorkspaceState.OnControlOp | crates/iroh-beekem-core/src/state.rs:3391-3413 | After an applied operation the chunks are drained with the keys now in hand; an `Add` by somebody no longer in the group makes an admin, and nobody else, ask for the added leaf's removal |
| WorkspaceState.WorkspaceState.OnCertsArrived | crates/iroh-beekem-core/src/state.rs:3446-3455 | Certificates alone drain both queues exactly when one of them was new |
| WorkspaceState.WorkspaceState.OnChunkArrived | crates/iroh-beekem-core/src/state.rs:2416-2433 | An arriving chunk is handled with the keys this node can derive now |
| Publishing.HandleStaysExact | crates/iroh-beekem-core/src/state.rs:3185-3236 | Every event, deletion included, keeps the equivalence: a version recorded as published, now or in the snapshot, is covered by what an in-order reader holds exactly when the reader is owed no full chunk of it |
| Publishing.HandleStaysPaced | crates/iroh-beekem-core/src/state.rs:3685-3773 | Every event keeps the delta run of every document within `FULL_PUBLISH_EVERY` between restarts |
| PublishingLaws.DocumentsHoldWhatWasBrought | crates/iroh-beekem-core/src/state.rs:2729-2749 | Over every run a document holds exactly the operations edited or imported into it by the events still in force, restores having cut back to the last save, after its last deletion among them |
| PublishingLaws.EditSends | crates/iroh-beekem-core/src/state.rs:3685-3773 | After every run an edit sends one chunk: a delta on the recorded version when one is recorded and fewer than `FULL_PUBLISH_EVERY` deltas went out since the last full chunk or restart, the whole document otherwise |
| PublishingLaws.EditReachesReaders | crates/iroh-beekem-core/src/state.rs:3719-3773 | Right after an edit a reader that is owed nothing holds what was added and all the document held before |
| PublishingLaws.ImportSendsNothing | crates/iroh-beekem-core/src/state.rs:3884-3904 | An import grows its document and changes nothing else |
| PublishingLaws.ResyncSends | crates/iroh-beekem-core/src/state.rs:3185-3200 | A resync sends the whole of a known document whose recorded version is not the current one, and is silent otherwise |
| PublishingLaws.ResyncReachesReaders | crates/iroh-beekem-core/src/state.rs:3185-3236 | After a resync a reader that is owed nothing holds the whole document |
| PublishingLaws.RepairSends | crates/iroh-beekem-core/src/state.rs:3277-3298 | A repair sends the whole of a known document, published or not, and nothing of an unknown one |
| PublishingLaws.DeletionAndSwitchForget | crates/iroh-beekem-core/src/state.rs:2920-2957 | A deletion withdraws the entry and forgets just that document; a namespace switch forgets what was published and keeps the documents |
| PublishingLaws.SaveThenRestore | crates/iroh-beekem-core/src/state.rs:1157-1268 | A restart brings back the documents, the recorded versions and the namespace of the last save, whatever happened since |
| Publishing.NextDeltaIsReadableExactlyWhen | crates/iroh-beekem-core/src/state.rs:3719-3773 | After every run the next delta's base is in such a reader's hands if and only if nothing is owed, and then the chunks since the last full one carry everything recorded as published |
| Publishing.DeltasRefineFullPublishing | crates/iroh-beekem-core/src/state.rs:3685-3773 | Over every run of edits, imports, resyncs, repairs, namespace switches, deletions, saves and restores, a reader that starts at a document's last full chunk holds everything recorded as published if and only if it is owed no full chunk of it, and delta runs are bounded between restarts |
| Publishing.NothingOwedWithoutDeletions | crates/iroh-beekem-core/src/state.rs:3185-3236 | Over every run without deletions nothing is ever owed, so the published version is always covered |
| Publishing.NothingOwedWithoutRestores | crates/iroh-beekem-core/src/state.rs:2930-2957 | Nor over a run without restores: a debt arises only where a restore undoes a deletion |
| Publishing.UndoneDeletion | crates/iroh-beekem-core/src/state.rs:2930-2957 | A debt does arise: publish, save, delete, publish anew and fall back to the snapshot, and what is recorded as published is covered if and only if the new document contains the old one |
| Publishing.RepairPaysTheDebt | crates/iroh-beekem-core/src/state.rs:3277-3298 | Whatever happened before, a repair's full chunk carries the whole document and leaves nothing owed |
| Publishing.FirstEditAfterRestart | crates/iroh-beekem-core/src/state.rs:1223-1268 | The first publish after a restart is full if and only if the snapshot had the document unpublished |
| Publishing.RestartsExtendDeltaRuns | crates/iroh-beekem-core/src/state.rs:1257-1261 | Restarts stretch a delta run without limit: the bound is per process lifetime |
| Publishing.DeltaRunsAreBoundedByRestarts | crates/iroh-beekem-core/src/state.rs:3685-3699 | Over every run the deltas since the last full chunk number at most `FULL_PUBLISH_EVERY` times one more than the restarts since it |
| WorkspacePublisher.WorkspacePublisher.PublishDoc | crates/iroh-beekem-core/src/state.rs:3719-3773 | Exports from the published version or in full, records the version handed out and counts the delta run |
| WorkspacePublisher.WorkspacePublisher.OnEdit | crates/iroh-beekem-core/src/state.rs:2729-2749 | Refused to a node that may not write; otherwise a delta below the bound when something was published, full if not; the publishing invariants are kept |
| WorkspacePublisher.WorkspacePublisher.OnImport | crates/iroh-beekem-core/src/state.rs:3890-3897 | Merging a peer's chunk grows the document and nothing that is recorded as published |
| WorkspacePublisher.WorkspacePublisher.OnResync | crates/iroh-beekem-core/src/state.rs:3185-3200 | Refused to a node that may not write; silent for unknown and quiescent documents and full otherwise |
| WorkspacePublisher.WorkspacePublisher.OnRepair | crates/iroh-beekem-core/src/state.rs:3254-3298 | A repair request is refused to a stranger, empty from a node that may not write or does not hold the document, and answered in full otherwise |
| WorkspacePublisher.WorkspacePublisher.OnDelete | crates/iroh-beekem-core/src/state.rs:2920-2957 | Refused to a node that may not write; otherwise forgets the document, what was published of it and its delta count, and withdraws its index entry |
| WorkspacePublisher.WorkspacePublisher.OnSwitch | crates/iroh-beekem-core/src/state.rs:3215-3218 | A namespace switch forgets every claim about what is published |
| WorkspacePublisher.WorkspacePublisher.TakeSnapshot | crates/iroh-beekem-core/src/state.rs:1157-1200 | A snapshot carries the documents, the published versions and the namespace |
| WorkspacePublisher.WorkspacePublisher.ResumeFrom | crates/iroh-beekem-core/src/state.rs:1223-1268 | Restoring keeps the published versions and restarts the delta counters |
| Namespace.AnnouncementsLand | crates/iroh-beekem-core/src/state.rs:2686-2721 | Announcements alone leave a node on the greatest of where it was and what it could decrypt |
| Namespace.RotationLands | crates/iroh-beekem-core/src/state.rs:2644-2678 | A batch of removals answered by its mints ends on the last requested generation with the last ticket, the other mints being dropped, unless a later generation was heard of before the mints |
| Namespace.StepReachesTheGreatest | crates/iroh-beekem-core/src/state.rs:2644-2721 | For any number of removals and any announcements heard before the mints: the node ends on the greatest of mint and announcements, if and only if it is not the case that none is of a later generation and one of the same has a greater digest |
| Namespace.AlwaysGreatestExactlyWhen | crates/iroh-beekem-core/src/state.rs:2644-2721 | At every point of a run the node is on the greatest of its start value, its own last mints and the announcements it could decrypt, if and only if no mint overwrote a greater announcement of its generation |
| Namespace.NamespaceIsTheGreatestSeen | crates/iroh-beekem-core/src/state.rs:155-189 | After any run in which no mint overwrites a greater announcement and the counter does not saturate, the namespace is the (epoch, digest) maximum of the start value, the node's own last mints and the announcements it could decrypt |
| Namespace.NamespaceNeverMovesBack | crates/iroh-beekem-core/src/state.rs:2644-2721 | Across any run of announcements and rotations answered by their mints, overwritten announcements or not, a node never moves to a smaller generation than it started on |
| Namespace.EpochNeverFalls | crates/iroh-beekem-core/src/state.rs:2449-2721 | Over any events in any order the epoch never falls |
| Namespace.OnlyAMintMovesBack | crates/iroh-beekem-core/src/state.rs:2449-2721 | Over any events in any order, saturation included: a node that moved back did so within its generation, by a mint of its own with a smaller digest |
| Namespace.NodesThatSawTheSameAgree | crates/iroh-beekem-core/src/state.rs:2686-2721 | Nodes that started together and saw the same generations, in any order and with none overwritten, agree |
| Namespace.NamespaceTracker.PerformRemoval | crates/iroh-beekem-core/src/state.rs:2449-2492 | The last device of the last admin stays; removing a stranger changes nothing; otherwise the next generation is asked for, saturating |
| Namespace.NamespaceTracker.OnMinted | crates/iroh-beekem-core/src/state.rs:2644-2678 | A mint for another generation than the current one is dropped; otherwise ticket and digest are installed together |
| Namespace.NamespaceTracker.OnArrived | crates/iroh-beekem-core/src/state.rs:2686-2721 | An announcement is adopted exactly when it decrypts and is greater; one that can never be decrypted is asked for; one whose operation is missing is left alone |
| Outbox.EncryptIsOrderly | crates/iroh-beekem-core/src/keys.rs:854-872 | Encrypting on a blank tree mints an update that must go out before the chunk; otherwise the current epoch's operation is already out |
| OutboxLaws.MintIsNewAndLast | crates/iroh-beekem-core/src/keys.rs:771-850 | An operation minted here is this node's, was not applied before, and has everything applied before among its ancestors |
| Outbox.PublishIsOrderly | crates/iroh-beekem-core/src/state.rs:3375-3389 | Whatever keying was asked for, the operations go out in order before the chunk they key |
| OutboxLaws.PublishingUnderAFreshEpoch | crates/iroh-beekem-core/src/keys.rs:896-911 | A publish under a fresh epoch first sends a new update of this node's, and unless the tree keeps its root key through that, the chunk is keyed by an operation that was not applied before |
| OutboxLaws.PublishingUnderTheCurrentEpoch | crates/iroh-beekem-core/src/keys.rs:854-872 | A publish under the current epoch sends the chunk alone, or, on a blank tree, a new update and the chunk it keys |
| OutboxLaws.AdmittingSendsTheAdd | crates/iroh-beekem-core/src/state.rs:3073-3110 | An admission sends the `Add` of exactly that member and then the manifest, keyed as the tree stands after it; a repeated admission sends no `Add` |
| OutboxLaws.RemovingSendsTheRemove | crates/iroh-beekem-core/src/state.rs:2449-2492 | A removal sends the `Remove` of exactly that member, and nothing if it was not there |
| OutboxLaws.LeavingRemovesEachDevice | crates/iroh-beekem-core/src/state.rs:2593-2635 | Leaving sends the removal of exactly the named devices, in order, each on top of the ones before it, and nothing else |
| OutboxLaws.RotatingSendsAnUpdate | crates/iroh-beekem-core/src/keys.rs:822-850 | A rotation sends a new update of this node's, which keys what follows |
| OutboxLaws.MergingTakesIn | crates/iroh-beekem-core/src/keys.rs:976-1036 | A peer's operation is taken in, and sent on to nobody, exactly when its predecessors are here and its issuer is known |
| Outbox.LeavingIsOrderly | crates/iroh-beekem-core/src/state.rs:2593-2635 | Leaving broadcasts one removal per device, each on top of the previous one |
| Outbox.HandleIsOrderly | crates/iroh-beekem-core/src/state.rs:3073-3110 | Every handler's effect list keeps the wire causally closed, admission followed by its manifest included |
| Outbox.OutputIsCausallyClosed | crates/iroh-beekem-core/src/state.rs:3763-3772 | Over any run every emitted operation follows its predecessors and every emitted chunk the operation that established its epoch |
| Outbox.OrderedReaderNeverWaits | crates/iroh-beekem-core/src/keys.rs:896-945 | A receiver that authorises the operations and reads the stream in order never parks one and never finds a chunk awaiting its operation |
| Cooldown.PruningAgreesExactlyWhen | crates/iroh-beekem-core/src/cooldown.rs:106-117 | For every sequence of claims, whatever the clock does: `claim` answers throughout as a limiter that never forgets, if and only if no claim comes within a window of its key's last admission after a claim in between was a window past it |
| Cooldown.NextAnswerAgreesExactlyWhen | crates/iroh-beekem-core/src/cooldown.rs:106-117 | As long as they agreed, the two limiters part exactly at such a claim |
| Cooldown.LedgerAdmitsExactlyWhen | crates/iroh-beekem-core/src/cooldown.rs:106-117 | For every clock the limiter that never forgets refuses exactly the claims within a window of their key's last admission |
| Cooldown.PruningChangesNoAnswer | crates/iroh-beekem-core/src/cooldown.rs:106-117 | So for non-decreasing times `claim` answers exactly as a limiter that never forgets |
| Cooldown.AdmittedClaimsAreSpaced | crates/iroh-beekem-core/src/cooldown.rs:106-117 | For non-decreasing times two admitted claims of one key are at least a window apart |
| Cooldown.AdmittedExactlyWhen | crates/iroh-beekem-core/src/cooldown.rs:106-117 | For non-decreasing times a claim is admitted if and only if every admitted claim of its key is at least a window old |
| Cooldown.TrackedKeysAreTheRecentOnes | crates/iroh-beekem-core/src/cooldown.rs:106-117 | For non-decreasing times and a positive window, after a claim the tracked keys are exactly those admitted less than a window ago |
| Cooldown.SteppingBackReadmits | crates/iroh-beekem-core/src/cooldown.rs:106-117 | For any window, two keys and times: a clock that steps back into a key's window readmits it, so some condition on time is needed |
| Cooldown.Cooldown.TryClaim | crates/iroh-beekem-core/src/cooldown.rs:106-117 | Prune, decide and record in place, as the specification says |
| Asset.SegmentsCover | crates/iroh-beekem-core/src/asset.rs:144-156 | The segments hold the whole file, none starts past its end, and one fewer would not do |
| Asset.NoPayloadPastTheEnd | crates/iroh-beekem-core/src/asset.rs:162-168 | Past the last segment there is no payload |
| Asset.SealAsset | crates/iroh-beekem-sim/src/lib.rs:2624-2646 | The writer's loop files exactly the padded, sealed pieces of the file under their indices |
| Asset.ReadAsset | crates/iroh-beekem-sim/src/lib.rs:2713-2737 | The reader's loop joins the trimmed segments, fails on the first gap or refusal, and refuses a result with another digest than the one on record |
| Asset.SealingPads | crates/iroh-beekem-core/src/asset.rs:233-262 | A piece that fits is sealed whole, padded with zeros to the width; a longer one is refused |
| Asset.OpensOnlyAsSealed | crates/iroh-beekem-core/src/asset.rs:276-308 | A sealed segment opens under exactly the key, asset, position, count and width it was sealed with, and is trimmed to the payload |
| Asset.PieceSurvives | crates/iroh-beekem-core/src/asset.rs:233-308 | Padding, sealing, opening and trimming one segment returns its bytes |
| Asset.SegmentationRoundTrip | crates/iroh-beekem-core/src/asset.rs:144-168 | Sealing a file and reading it back with its digest returns the file if and only if the width is positive or the file empty |
| Asset.MovedSegmentsAreRefused | crates/iroh-beekem-core/src/asset.rs:213-308 | A segment presented at another index makes the whole read fail |
| Asset.AssetPartKey | crates/iroh-beekem-core/src/blinding.rs:191-196 | The copied buffer is the prefix followed by the big-endian index, 32 bytes in all |
| Asset.PartKeySpellsTheIndex | crates/iroh-beekem-core/src/blinding.rs:191-196 | A part key is the prefix followed by bytes that spell the index |
| Asset.PartKeysIncrease | crates/iroh-beekem-core/src/blinding.rs:174-196 | Part keys of one asset share its prefix and increase strictly in byte order with the index |

## Left out

- MergeConfluence.ConfluenceIsJustification: stated from an empty queue, because with operations already parked the order of the queue can decide instead of the order of delivery (`WaitingVoucherDecides`), and for sets of at most `MAX_PARKED_OPS` operations, because a larger set may have no loss-free delivery at all, and then agreement holds for want of two runs; the direction from the condition to agreement has neither limit in `DeliveryOrderDoesNotMatter`.
- IngestConfluence.InterleavingDoesNotMatter: asks that chunks of one document with one reference and epoch be the same chunk; `InterleavingsAgreeExactlyWhenLossIsHarmless` is the exact condition, stated from an empty queue for chunks that fit the budget at once, because eviction loses chunks by design.
- Escalation.OutsidersCannotEscalate: its condition, freedom from conflicts, excludes rival bindings that the loop admits; `OutsidersChangeNothingExactlyWhen` has no such condition and `OutsidersGainNothing` reads only the bindings held before.
- Publishing.DeltasRefineFullPublishing: a restore is from the latest snapshot; going back to an older one is not modelled. What a reader is owed is bookkeeping over the node's own events; peers' entries for the same document are not in it.
- WorkspacePublisher.WorkspacePublisher.OnRepair: document targets only; repairs of the manifest, the namespace and asset keys, and under which epoch the answer is keyed, are not modelled here (keying is in `Outbox`).
- Authority.EveryMergedRemovalHasItsQuorum: speaks of the certificates held at the end, so it asks that the founder's threshold did not change during the run and that no device changed hands; `EveryMergedRemovalHadItsQuorum` speaks of the certificates held at the merge and needs neither.
- Namespace.NamespaceIsTheGreatestSeen: the removals of a batch come before what is heard in the gap, and that before the mints; the counter does not saturate. `EpochNeverFalls` and `OnlyAMintMovesBack` have no such limits.
- Cooldown.PruningChangesNoAnswer: for a clock that does not step back; `PruningAgreesExactlyWhen` is the statement for every clock.
- WorkspaceState.WorkspaceState.OnCertsArrived: the pass that carries out executable proposals afterwards, whether or not anything was new, is not modelled.
- WorkspaceInbox.WorkspaceInbox.ForgetDocument: only the queue's and the documents' share of a deletion; the publisher's share, index entry included, is `OnDelete`; the tombstone and the republished manifest are not modelled.
- beekem's tree, key derivation and error paths, Ed25519, BLAKE3, XChaCha20-Poly1305 and Loro's internals: foreign libraries, present only through the abstractions above; in particular a tree error inside `merge_pending` is not modelled.
- `current_members`: every change of it is explained (`RosterIsExplained`), but nothing is claimed about its convergence; it is order-sensitive by design. Of the eviction of a leaf spliced in by a removed member only the request is modelled.
- `run_quorum_actions`, `require_quorum` and `proof_of`: local courtesies and bookkeeping on top of the closure. Whether the local member may write, and whether a device is the last admin's, are parameters.
- `join` and replay of the operation log: authority is judged under current roles, so success needs every logged operation to be authorised under the certificates supplied.
- Nonces and expiry times of certificates: carried by the source, never evaluated there.
- `last_ref`, display names, labels, paths, checkpoints, version listing and the manifest's containers: thin wrappers over Loro.
- An asset's key chunk and its versions; segments are filed by index rather than by part key, which `PartKeysIncrease` shows to be one-to-one.
- The source's `WorkspaceState` is split into an inbox, a publisher and a namespace tracker over disjoint fields, with `WorkspaceState` here joining the key plane and the inbox, and the effect-ordering handlers of `Outbox` are modelled on values; the interplay of one borrowed object is not captured. A store's derived fields are one record.
- 32-bit and 64-bit counters of evictions, unreadable and corrupt chunks are unbounded; the namespace epoch, the drain age and segment offsets saturate as in the source.
- The networking crate, invites, the simulator's schedules and adversaries, byte encodings and domain-tag bytes.
