# Verified model of Pheme's federation core

This Dafny project models the parts of the Pheme API server that keep a federated, end-to-end
encrypted conversation in one agreed order, together with the state machines around them, and
proves what they guarantee over every run.

| file | what it models |
|---|---|
| `Bytes.dfy`, `Sums.dfy` | octets, big-endian integers, Go's `int64`; sums and counts along sequences |
| `OrderingChain.dfy` | the length-prefixed hash chain over a group's commits |
| `GroupStore.dfy` | the store's compare-and-set on a conversation's MLS group |
| `FederatedOrder.dfy`, `FederatedOrderProof.dfy`, `FederatedOrderTheorems.dfy`, `FederatedOrderSteps.dfy` | one hub, any number of mirrors and an unreliable network as a transition system, its invariants, the theorems, and what each step at the hub does |
| `FollowerInputs.dfy`, `MirrorProgress.dfy` | what a follower can forward for want of checks that only local handlers make; when exactly a mirror gets past an epoch, and what a forged relay can change |
| `ConvFederation.dfy` | the commit path of one host as imperative code, tied to that transition system |
| `MirrorAppliers.dfy` | one mirror, provisioned with any group state, under arbitrary traffic, with no assumption about who sent it |
| `MlsWire.dfy`, `MlsReader.dfy`, `MlsStrict.dfy` | the MLS framing grammar (section 6 of RFC 9420), the cursor-moving decoder, and what it accepts beyond section 2.1.2 |
| `PushPump.dfy` | the lock-free byte budget and bounded channel of the push queue |
| `MessageFanOut.dfy`, `Receipts.dfy` | ordinary messages and receipt watermarks across hosts |
| `ReplayGuard.dfy`, `Sessions.dfy` | single-use signed requests; session revocation against refresh |
| `KeyBackup.dfy`, `LiveRegistry.dfy`, `CommitStorm.dfy` | backup blob ownership, the live subscriber index, the commit-storm detector |
| `Ident.dfy`, `IdentGrammar.dfy` | identifiers and pair keys; the grammar of the spellings that are accepted |

Code that changes state step by step appears twice: as a transition system, whose steps are the
atomic steps of the source and over whose runs the theorems speak, and as classes and methods with
loops, whose contracts tie them to those steps.  Runs are arbitrary finite sequences of steps; a
step that is not enabled changes nothing.

## Assumptions

* SHA-256 is a parameter `H` with a 32-octet output.  No such function is injective, so collision
  freedom is assumed only of the finitely many positions hashed in the run at hand.
* Signatures are symbolic: an intermediary can put any relay on the network, but a signature of
  the hub only over a hash the hub has signed.  The hub's answer to a mirror's own request comes
  back on that request's connection and is lost or late, but not forged.
  A host's requests name their sender truly, as they are signed; what else they say is up to it.
* One group lifetime per conversation.  Of the hub's runs, those are `Settled` in which the first
  accepted commit, if any, names a group; `FollowerInputs.OrderHoldsExactlyOnceNamed` shows that
  the order is lost in the others.
  Likewise a mirror under arbitrary traffic is provisioned with a named group, or starts at epoch 0
  with a commit that names one; and no link it computes is the head it was provisioned with.
* A store or blob call that reports a failure changed nothing, except archiving a backup, which is
  several calls and can stop between them.
* Epochs have not passed the largest `int64`, where `Succ` wraps as the machine does.
* Clock readings never go backwards where a statement says `Clocked`; a request takes one reading.

## Where the code and its documentation differ

The model follows the code.  Each of these is a lemma below.

* `SubmitCommit` accepts a forwarded commit with an empty group id, which only the local handler
  refuses (`api/internal/chat/mlsgroup.go:301`), and then several commits for epoch 0.  One commit
  per epoch holds from then on exactly if the first accepted commit names a group
  (`FollowerInputs.UnnamedGroupTakesTwoCommits`, `OrderHoldsExactlyOnceNamed`).
* `SubmitMessage` accepts the commit content type, which only the local handler refuses
  (`api/internal/chat/messages.go:90`).  The hub publishes such a message, its submitter stores
  the echo, and every other mirror refuses the relay (`FollowerInputs.UnacceptedCommitIsAnnounced`,
  `MessageFanOut.ArrivingIsStoredExactly`, `SubmittedCommitSplitsMirrors`).
* `SubmitCommit` never reads the commit, so a forwarded one can still lie about its epoch, which the
  comment on the local check rules out (`api/internal/chat/mlsgroup.go:325-352`).  Every readable
  commit carries the epoch it was accepted at exactly if every accepted forwarded one passes that
  check (`FollowerInputs.ForwardedCommitCanLieAboutItsEpoch`,
  `FederatedOrderTheorems.ReadableCommitsCarryTheirEpochExactly`).
* `SubmitReceipt` merges and relays whatever marks a member's home host sends; only the local handler
  raises delivered to read (`api/internal/chat/messages.go:740-743`).  Read stays within delivered on
  every host, and no host gets ahead of a member's home, exactly if each accepted update satisfies a
  condition where it arrives (`Receipts.ForwardedReadCanPassDelivered`, `SaneThroughoutExactly`,
  `BehindThroughoutExactly`, `AllHostsAgreeExactly`).
* A link fixes epoch, group and ciphertext of a commit.  The Welcome beside it and the sender's name
  are not hashed, so forged relays cannot make mirrors hold different commits but can change those
  (`FederatedOrderTheorems.MirrorsAgreeOnCommits`, `MirrorProgress.ForgedWelcomeIsStored`).
* `mlswire` accepts variable-length headers that are not minimal, and 8-octet ones, both of which
  section 2.1.2 of RFC 9420 forbids (`MlsStrict.ForbiddenHeadersAreAccepted`,
  `AcceptedIsValidExactly`).
* A mirror verifies a relayed link but not that the commit's epoch is its own next one.  An honest
  hub's links imply it; under arbitrary traffic a verified commit can be applied to a head it was
  never checked against (`MirrorAppliers.CasActsOnVerifiedHeadExactly`, `StaleVerificationCanSucceed`).
* A relayed commit that is lost is never asked for again.  A mirror gets past an epoch exactly if
  the next commit is handed to it while it stands there (`MirrorProgress.MirrorPassesEpochExactly`,
  `LostRelayLeavesTheMirrorBehind`).
* A replay is accepted once more at the two exact ends of the skew window
  (`ReplayGuard.BothEndsOfTheWindowAccept`).
* A reset's cutoff also refuses a login later in the same second, and a session minted by a reset
  can outlive its own termination (`Sessions.LoginPassesCutoffExactly`, `ResetSessionCanOutliveItsTermination`).
* The backup shrink guard compares the count a request claims, but a request without a transcript
  records a count of zero (`KeyBackup.UnforcedUploadCanShrinkHistory`); and if the stored backup
  cannot be read, the guard and the archive are both skipped (`KeyBackup.FailedReadLetsHistoryShrink`,
  `OrphansAreExact`).  `KeyBackup.AcceptedUploadKeepsHistoryExactly` says when the history is kept.
* If archiving stops while removing old records, their blobs are deleted although the records are
  still listed (`KeyBackup.VersionsDangleExactly`, `ListedVersionCanDangle`).
* `Parse(s).String() == s` does not hold for everything `Parse` accepts, against the comment on
  `ErrNotCanonical` (`Ident.EveryIdentifierHasOtherSpellings`); it holds exactly for the spellings
  `Ident.SpellingIsCanonicalExactly` describes.

## Model

| member | source | states |
|---|---|---|
| `OrderingChain.PreimageInjective` | api/internal/mlschain/mlschain.go:40-64 | Distinct tuples of previous link, epoch, group and commit are never hashed as the same octets |
| `OrderingChain.PreimageLayout` | api/internal/mlschain/mlschain.go:28-64 | What is hashed, position by position: label, previous link, epoch, group and commit, each but the epoch behind its length, all numbers in eight octets |
| `OrderingChain.FieldSplit` | api/internal/mlschain/mlschain.go:59-64 | A length-prefixed field is self-delimiting whatever follows it |
| `OrderingChain.LinksNamePositions` | api/internal/mlschain/mlschain.go:40-57 | Without collisions among the positions hashed, equal links mean equal positions |
| `OrderingChain.HeadsDetermineLogs` | api/internal/mlschain/mlschain.go:31-57 | Two chain heads are equal if and only if the whole commit sequences and groups are |
| `OrderingChain.HashedHeadsDetermineLogs` | api/internal/mlschain/mlschain.go:31-57 | The same for the concrete hash, assuming only that the preimages hashed do not collide |
| `OrderingChain.HeadsDetermineTails` | api/internal/mlschain/mlschain.go:31-57 | For logs on different bases at the same epoch: the heads are equal if and only if the longer log had reached the other's base and went on with the same commits |
| `OrderingChain.ForkNeverHeals` | api/internal/mlschain/mlschain.go:31-57 | Once two logs fork, no continuations of any length bring their heads together again |
| `OrderingChain.Sha256.WriteField` | api/internal/mlschain/mlschain.go:59-64 | The hasher has been fed the length-prefixed field and nothing else |
| `OrderingChain.ComputeLink` | api/internal/mlschain/mlschain.go:40-57 | The incremental hashing yields the link whose preimage is proved injective |
| `GroupStore.FirstCommitOfStamped` | api/internal/store/mlschain.go:10-31 | Stamping a batch changes nothing but the chain hash of its commit, which stays first |
| `GroupStore.FindCommitCiphertext` | api/internal/store/mlschain.go:10-17 | Finds the ciphertext of the first commit in the batch, before which there is none, or nothing if there is no commit |
| `GroupStore.StampChainHash` | api/internal/store/mlschain.go:21-31 | The loop stamps every commit of the batch and leaves the other messages alone |
| `GroupStore.ConversationRecord.CommitMLSGroup` | api/internal/store/store_memory_keypackages.go:232-271 | Succeeds exactly when no group is set up and the base is 0, or group and epoch match; then group, epoch, log and a head linking the first commit to the old head move together, and otherwise nothing does |
| `FederatedOrderTheorems.HubOrdersOneCommitPerEpoch` | api/internal/chat/mlsgroup.go:381-435 | Over every mix of local and forwarded commits and messages in a settled run: exactly one commit per epoch, consecutive, each linked to its predecessor; everything accepted is announced, and of what is announced or on the wire the accepted batches are exactly those with a link |
| `FederatedOrderSteps.CommitIsAcceptedExactly` | api/internal/chat/convfed.go:457-497 | A commit is accepted if and only if it passes the local handler or comes from its sender's home, and builds on the group as it is; then the batch it asks for, Welcome first, is appended and waits to be announced, and a submitter is answered with epoch, link and signature; otherwise nothing changes |
| `FederatedOrderSteps.BatchIsAsRequested` | api/internal/chat/mlsgroup.go:381-413 | The stored batch holds a Welcome if and only if the request brings one, in front of the commit, both in the requester's name for the next epoch |
| `FederatedOrderSteps.FanOutReachesExactly` | api/internal/chat/convfed.go:752-768 | An accepted batch is published and relayed, signed where it is linked, to each participant but the host it came from, and to nobody else |
| `FederatedOrderSteps.MessageReachesExactly` | api/internal/chat/convfed.go:427-452 | A submitted message is published and relayed likewise if its sender lives on the submitting host, and ignored otherwise |
| `FederatedOrderTheorems.HubHeadIsChain` | api/internal/chat/convfed.go:457-508 | The head the hub hands out at an epoch is the chain over exactly its commits up to there |
| `FederatedOrderTheorems.EveryMirrorFollowsTheHub` | api/internal/chat/convfed.go:355-423 | However relays are lost, delayed, duplicated, reordered or forged, a mirror holds the hub's consecutive commits from its provisioning epoch to its own, and its head is the hub's there |
| `FederatedOrderTheorems.MirrorsAgree` | api/internal/chat/convfed.go:355-423 | In runs without forged relays, two mirrors that both applied an epoch hold the same batch for it, message for message |
| `FederatedOrderTheorems.MirrorsAgreeOnCommits` | api/internal/chat/convfed.go:386-423 | Forged relays included, their batches hold the same commit: same epoch, group, ciphertext and link |
| `FederatedOrderTheorems.CompareAndSetActsOnVerifiedHead` | api/internal/chat/convfed.go:386-423 | However appliers interleave between verifying and the compare-and-set, one that succeeds acts on the very head it verified |
| `FederatedOrderTheorems.ReadableCommitsCarryTheirEpochExactly` | api/internal/chat/mlsgroup.go:325-352 | In every settled run, each accepted commit whose framing can be read is a commit built on the epoch it was accepted at, if and only if the accepted forwarded ones are |
| `FederatedOrderTheorems.StepKeepsEpochsTrueExactly` | api/internal/chat/convfed.go:457-497 | A step keeps that if and only if it is not an accepted forwarded commit that fails the local handler's check; every commit the hub's own handler accepts keeps it |
| `FederatedOrderTheorems.MissedCommitFreezesTheMirror` | api/internal/chat/convfed.go:386-423 | A mirror whose next commit never reaches it does not move again, however many later relays arrive |
| `MirrorProgress.MirrorPassesEpochExactly` | api/internal/chat/convfed.go:386-423 | A mirror gets past an epoch if and only if, while it stands there, the hub's next commit is handed to it in a relay or a reply, and the applier this starts runs later |
| `MirrorProgress.LostRelayLeavesTheMirrorBehind` | api/internal/chat/convfed.go:752-768 | A reachable run in which one relay is lost, the next arrives, and the mirror stays two commits behind the hub |
| `MirrorProgress.ForgedWelcomeIsStored` | api/internal/mlschain/mlschain.go:40-57 | A reachable run with a forged relay: the mirror's head is the hub's, and its copy of the batch has another sender and a Welcome the hub never saw |
| `MirrorProgress.EveryApplierWasStarted` | api/internal/chat/convfed.go:386-401 | Every applier in flight was started by a delivery whose link and signature passed the check at the head its mirror then had |
| `MirrorProgress.HeadsAreDistinct` | api/internal/mlschain/mlschain.go:31-57 | The hub never comes back to a head, so a head names its epoch |
| `FollowerInputs.UnnamedGroupTakesTwoCommits` | api/internal/chat/convfed.go:457-478 | Two forwarded commits without a group id: the hub accepts both for epoch 0 |
| `FollowerInputs.ForwardedCommitCanLieAboutItsEpoch` | api/internal/chat/convfed.go:457-478 | A forwarded commit that its own framing builds on any later epoch is accepted for epoch 0 |
| `FollowerInputs.OrderHoldsExactlyOnceNamed` | api/internal/chat/convfed.go:457-497 | From a run in which the hub has accepted a commit, every continuation keeps one commit per epoch if and only if that first commit names a group |
| `FollowerInputs.UnacceptedCommitIsAnnounced` | api/internal/chat/convfed.go:427-452 | A follower's message typed as a commit is published although no compare-and-set accepted it |
| `FollowerInputs.PlainRelayIsRefused` | api/internal/chat/convfed.go:386-396 | A relayed message without a link starts no applier on any mirror |
| `FederatedOrderTheorems.DeliveredRelaysCatchUp` | api/internal/chat/convfed.go:355-423 | If the relays a mirror still needs are on the network, some schedule brings it level with the hub |
| `FederatedOrderProof.RunKeeps` | api/internal/chat/convfed.go:355-508 | The invariant over the hub, every mirror, every applier in flight and every reply holds in every reachable state |
| `FederatedOrderProof.RunKeepsHub` | api/internal/chat/mlsgroup.go:381-435 | The hub's half of it, with no assumption on the hash |
| `FederatedOrderProof.LinkIsTheHubs` | api/internal/chat/convfed.go:386-413 | A commit whose link checks out against a head and equals one of the hub's hashes is the hub's commit at that position |
| `FederatedOrderProof.CasOnVerifiedHead` | api/internal/chat/convfed.go:402-423 | A sound applier that the compare-and-set admits stands at the epoch and head it verified |
| `FederatedOrderProof.MirrorCasKeeps` | api/internal/chat/convfed.go:402-423 | Applying a verified batch, or being refused as stale, leaves the mirror on the hub's log |
| `FederatedOrderProof.VerifiedRelay` | api/internal/chat/convfed.go:386-401 | A relay that passes the check yields an applier holding the hub's own commit, forged traffic included |
| `FederatedOrderProof.VerifiedReply` | api/internal/chat/convfed.go:863-903 | The link returned for a forwarded commit, checked, yields an applier holding the hub's own batch |
| `FederatedOrderProof.HubCommitKeeps` | api/internal/chat/convfed.go:457-497 | A commit at the hub, accepted or refused, keeps the invariant for all mirrors and appliers |
| `FederatedOrder.ToWire` | api/internal/chat/convfed.go:155-172 | Relayed messages carry each stored message unchanged, signed by the hub exactly if it has a chain hash and the hub signs |
| `FederatedOrder.FirstCommitWire` | api/internal/chat/convfed.go:355-384 | The commit found in a relayed batch is the one the store's scan will find in it |
| `ConvFederation.AtOnceIsTwoSteps` | api/internal/chat/convfed.go:386-423 | An uninterrupted delivery is a delivery step and the compare-and-set of the applier it starts; it leaves the mirror alone exactly if that step starts none |
| `ConvFederation.NextRelayIsApplied` | api/internal/chat/convfed.go:386-423 | A mirror anywhere on the hub's log that is sent the hub's relay of its next commit ends one epoch on, at the hub's head, with the hub's batch appended |
| `ConvFederation.OwnCommitIsApplied` | api/internal/chat/convfed.go:863-903 | So does one that gets the hub's signed answer to its own commit while it stands where that builds on |
| `ConvFederation.Host.CheckCommit` | api/internal/chat/mlsgroup.go:301-352 | The local handler's refusals, each exactly under the first condition that fails; what passes names a group, has the right sizes and is not framed for another epoch |
| `ConvFederation.ReplyAtOnceIsTwoSteps` | api/internal/chat/convfed.go:863-903 | Likewise for an uninterrupted application of the hub's reply |
| `ConvFederation.RelayIsFanOut` | api/internal/chat/convfed.go:752-768 | The relay loop reaches exactly the listed hosts but the submitter, each with the batch as it goes on the wire |
| `ConvFederation.Host.AcceptCommit` | api/internal/chat/mlsgroup.go:381-435 | Accepts exactly what builds on the group, appends the batch asked for under the new link, publishes that batch and relays it; a refused commit changes and announces nothing |
| `ConvFederation.Host.BuildBatch` | api/internal/chat/mlsgroup.go:381-413 | The batch holds a Welcome if and only if the request brings one, followed by exactly one commit, for the given epoch |
| `ConvFederation.Host.Sign` | api/internal/chat/convfed.go:155-172 | The loop signs exactly the stamped messages of the batch |
| `ConvFederation.Host.Relay` | api/internal/chat/convfed.go:752-768 | One envelope per listed host but the submitter, in order, after what was sent before |
| `ConvFederation.Host.ApplyRelayedCommit` | api/internal/chat/convfed.go:386-423 | Refuses exactly a commit whose link or signature does not check out; one that does and continues the group moves it to the relayed epoch and link, and its batch is logged and published; otherwise nothing changes |
| `ConvFederation.Host.ApplyReply` | api/internal/chat/convfed.go:863-903 | Refuses exactly a link or signature that does not check out; otherwise the mirror's own batch is logged under the returned link if it builds on the group, and nothing is published |
| `MirrorAppliers.CasActsOnVerifiedHeadExactly` | api/internal/chat/convfed.go:386-423 | Whatever a mirror was provisioned with and was sent, an admitted compare-and-set acts on the verified head if and only if verification happened at the epoch the commit claims as its base |
| `MirrorAppliers.StaleVerificationCanSucceed` | api/internal/chat/convfed.go:386-423 | That condition can fail: a concrete run in which a commit is admitted on a head it was not checked against |
| `MirrorAppliers.HeadsAreTamperEvident` | api/internal/chat/convfed.go:179-214 | Two mirrors provisioned at any two epochs and compared at one have equal heads exactly if the earlier had the other's starting head and both applied the same commits since |
| `MirrorAppliers.AlikeProvisionedHeads` | api/internal/chat/convfed.go:386-423 | Provisioned alike, two mirrors have equal heads exactly if they applied the same commits of the same group |
| `MlsWire.ParseExactly` | api/internal/mlswire/mlswire.go:73-118 | The decoder succeeds with given fields and remainder if and only if the input is an encoding of those fields followed by that remainder |
| `MlsWire.ParseDecodes` | api/internal/mlswire/mlswire.go:73-118 | Decoding any encoding, whatever follows it, returns its group, epoch and content type |
| `MlsWire.ParseSound` | api/internal/mlswire/mlswire.go:73-118 | Every success consumed a valid encoding of the fields returned |
| `MlsWire.ParseIgnoresWhatFollows` | api/internal/mlswire/mlswire.go:73-118 | Extending an accepted message changes nothing |
| `MlsWire.ParseCut` | api/internal/mlswire/mlswire.go:126-131 | Cutting an accepted message anywhere inside what was consumed is reported as truncation |
| `MlsStrict.AcceptedIsValidExactly` | api/internal/mlswire/mlswire.go:172-219 | An accepted message is a valid encoding by the standard if and only if the first octets of its two vector headers carry the smallest class for the vectors' lengths |
| `MlsStrict.ForbiddenHeadersAreAccepted` | api/internal/mlswire/mlswire.go:172-198 | Headers of 2, 4 and 8 octets for an empty group id are accepted although the standard forbids them |
| `MlsWire.NotPublicExactly` | api/internal/mlswire/mlswire.go:73-92 | A message is refused as encrypted exactly if its wire format field says PrivateMessage |
| `MlsReader.ParseHandshake` | api/internal/mlswire/mlswire.go:73-118 | The cursor-moving decoder in 64-bit arithmetic computes the grammar's decoder, without overflow or out-of-range access |
| `MlsReader.Reader.Varint` | api/internal/mlswire/mlswire.go:172-198 | The accumulating loop reads the variable-length header the grammar defines and moves the cursor past it |
| `MlsReader.Reader.Vec` | api/internal/mlswire/mlswire.go:202-219 | A length-prefixed vector is read and skipped exactly, or the read fails as truncated |
| `MlsReader.Reader.SkipSender` | api/internal/mlswire/mlswire.go:224-238 | Each sender form is skipped by its own width; an unknown one is malformed |
| `MlsReader.CursorNeverOverflowsExactly` | api/internal/mlswire/mlswire.go:126-131 | The cursor can add any announced length without overflow exactly while it is at most 2^62 |
| `PushPump.BytesAreAccountedFor` | api/internal/chat/pushqueue.go:94-130 | In every interleaving the counter is the admitted bytes, at most the budget, plus those of refused offers not rolled back; it is never negative |
| `PushPump.QuietCounterIsTheQueue` | api/internal/chat/pushqueue.go:94-130 | When no thread is between two steps, the counter is exactly what the queue holds |
| `PushPump.EveryJobHasOneFate` | api/internal/chat/pushqueue.go:94-149 | Every offered job is in exactly one place once: being offered, waiting, held, refused, dropped as stale, or run |
| `PushPump.CountersAndOrderAreExact` | api/internal/chat/pushqueue.go:94-149 | Jobs leave in the order they entered, the counters equal refusals and stale drops, and only jobs within the wait limit run |
| `PushPump.PushQueue.Offer` | api/internal/chat/pushqueue.go:94-115 | Accepted exactly if bytes and a slot are free; a refusal gives every byte back and is counted |
| `PushPump.PushQueue.Work` | api/internal/chat/pushqueue.go:125-149 | Takes the oldest job, releases its bytes, and runs it exactly if it waited no longer than allowed |
| `Receipts.SaneThroughoutExactly` | api/internal/chat/convfed.go:529-582 | Whatever hosts send, read stays within delivered on every host throughout a run if and only if no accepted update, where it arrives, brings a read mark past the delivered mark it brings or finds |
| `Receipts.BehindThroughoutExactly` | api/internal/chat/convfed.go:529-582 | No host gets ahead of a member's home throughout a run if and only if no accepted update is ahead of it on arrival |
| `Receipts.ForwardedReadCanPassDelivered` | api/internal/chat/convfed.go:529-541 | Any home host other than the hub can bring about both: one submitted update leaves the hub with read past delivered and ahead of home |
| `Receipts.WatermarksAreSane` | api/internal/chat/messages.go:735-765 | In runs in which home hosts submit only what the local handler would, sane marks that the home has recorded, read never passes delivered on any host and no host is ahead of a member's home |
| `Receipts.WatermarksNeverFall` | api/internal/store/store_memory_conversations.go:232-254 | No step lowers any watermark on any host |
| `Receipts.ReportIsRecorded` | api/internal/chat/messages.go:735-765 | A report moves the home host's copy in that way and no other copy |
| `Receipts.ReportReachesEveryHost` | api/internal/chat/convfed.go:529-582 | Once everything sent has arrived, no host is behind any report a member has made, whatever else was sent |
| `Receipts.ArrivalIsHeededExactly` | api/internal/chat/convfed.go:529-582 | An arriving update moves one copy, and is sent on by the hub to every mirror but its sender, if and only if it comes from the member's home to the hub or from the hub to a mirror |
| `Receipts.AllHostsAgreeExactly` | api/internal/chat/convfed.go:529-582 | Once every update sent has arrived, in any order and any number of times, all hosts hold the home host's marks if and only if no accepted update goes beyond them |
| `Receipts.AllHostsAgreeWhenAllHasArrived` | api/internal/chat/convfed.go:529-582 | So they do in runs in which home hosts submit only what the local handler would |
| `Receipts.MemberTable.SetReceipt` | api/internal/store/store_memory_conversations.go:232-254 | The member's first row moves forward field by field and no other row changes; nothing changes if there is none |
| `Receipts.MemberTable.Report` | api/internal/chat/messages.go:727-765 | Refused exactly if empty or there is no row; otherwise delivered becomes the highest of its old value and both reported, read the higher of its old value and the reported one, and no other row changes |
| `MessageFanOut.ParticipantsListedOnce` | api/internal/chat/convfed.go:108-126 | Every peer host with a member is listed exactly once, and no other host |
| `MessageFanOut.AddressedExactlyOnce` | api/internal/chat/convfed.go:427-452 | Relays plus the submitter's echo give each participant host exactly one copy |
| `MessageFanOut.AcceptanceAddressesEveryParticipantOnce` | api/internal/chat/messages.go:95-140 | In every run, accepting a message addresses it to each participant host of that moment exactly once |
| `MessageFanOut.MessageIsAcceptedExactly` | api/internal/chat/convfed.go:427-452 | A message is accepted if and only if it is posted here and not typed as a Welcome or commit, or is submitted by its sender's home; it is stored as sent, under a higher number than all before, and copied to every participant host |
| `MessageFanOut.RelayedOncePerPeer` | api/internal/chat/convfed.go:752-768 | Every peer host with a member is relayed to once, but for the one excepted |
| `MessageFanOut.ListedInOrderOfAppearance` | api/internal/chat/convfed.go:108-126 | More members only add hosts at the end of the list |
| `MessageFanOut.MirrorTranscriptIsTheHubs` | api/internal/chat/convfed.go:783-803 | A mirror's messages by number are the hub's with the missing ones left out: same ids, numbers and order |
| `MessageFanOut.ArrivingIsStoredExactly` | api/internal/chat/convfed.go:355-384 | A copy that arrives is stored if and only if it is an echo or not typed as a commit |
| `MessageFanOut.NothingLostNothingMissing` | api/internal/chat/convfed.go:355-384 | If nothing addressed to a mirror was lost, it holds exactly what was addressed to it but for messages typed as commits that another host submitted |
| `MessageFanOut.SubmittedCommitSplitsMirrors` | api/internal/chat/convfed.go:427-452 | A concrete run in which two mirrors disagree although nothing was lost |
| `MessageFanOut.TranscriptIsUnique` | api/internal/store/store_memory_conversations.go:190-215 | Sequence numbers determine the order of a set of messages |
| `MessageFanOut.ComputeParticipantHosts` | api/internal/chat/convfed.go:108-126 | The loop with its seen-set lists hosts in order of first appearance, without repetition |
| `MessageFanOut.HubLog.Append` | api/internal/store/store_memory_conversations.go:190-215 | The new message, with sender, body and type as given, is numbered one past the highest before it |
| `MessageFanOut.RelayExcept` | api/internal/chat/convfed.go:752-768 | One relay of the stored message per entry of the list, and a relay to exactly the peer hosts with a member but the submitter |
| `ReplayGuard.StoreIsExact` | api/internal/idempotency/idempotency.go:50-73 | Whatever the sweep deletes, the store knows exactly the keys of which an accepted use is still within its window |
| `ReplayGuard.SeenExactly` | api/internal/idempotency/idempotency.go:50-73 | A key is refused if and only if an earlier accepted use of it has an open window |
| `ReplayGuard.SignedRequestIsSingleUse` | api/internal/federation/signing.go:183-229 | A signed request accepted twice was accepted at the two exact ends of its skew window |
| `ReplayGuard.InsideTheWindowOnce` | api/internal/federation/signing.go:183-229 | A repeat before the window's last instant is refused |
| `ReplayGuard.BothEndsOfTheWindowAccept` | api/internal/federation/signing.go:183-229 | The exception is real: any good request is accepted at both ends |
| `ReplayGuard.Memory.Seen` | api/internal/idempotency/idempotency.go:50-73 | Reports a duplicate exactly while the key is held; otherwise holds it for the window, dropping the expired keys if there were more than 1024 |
| `ReplayGuard.Memory.Sweep` | api/internal/idempotency/idempotency.go:58-68 | Deletes exactly the expired entries |
| `ReplayGuard.Verify` | api/internal/federation/signing.go:169-230 | Verified, as its origin, if and only if the request is complete and well-formed, its signature authentic, the clock within five minutes of its timestamp, and its nonce not held; each refusal names the first condition that fails, and only a verified request changes the replay store |
| `Sessions.CutoffsNeverFall` | api/internal/auth/revoker.go:99-115 | In every run a recorded cutoff never moves backwards |
| `Sessions.IssuesOneOfEach` | api/internal/auth/token.go:232-290 | What is issued are an access and a refresh token of that user and session, stamped with the whole second, each living as long as its kind |
| `Sessions.LoginIssues` | api/internal/auth/token.go:205-226 | A login issues just these, now, under a session that was never used |
| `Sessions.ResetIssues` | api/internal/channel/auth_handler.go:706-718 | So does a reset, at its cutoff |
| `Sessions.RefreshIssuesExactly` | api/internal/channel/auth_handler.go:512-554 | A refresh issues new tokens for the same session if and only if it shows a known refresh token that is unexpired, of a session not revoked, and not below the user's cutoff |
| `Sessions.CutOffForEver` | api/internal/auth/token.go:165-196 | A token issued before a recorded cutoff never authorises again and can never be refreshed |
| `Sessions.DeadSessionsStayDead` | api/internal/channel/auth_handler.go:512-554 | Once all of a session's tokens are below the cutoff, no refresh, login or reset revives it |
| `Sessions.ResetEndsAllButItsOwnSession` | api/internal/channel/auth_handler.go:676-718 | Whatever happens between a reset's cutoff and the session minted at it, every older token of the user is refused, and the new session passes the cutoff exactly unless a later one was recorded |
| `Sessions.LoginPassesCutoffExactly` | api/internal/auth/token.go:212-245 | A login passes a whole-second cutoff if and only if it does not precede it |
| `Sessions.RevocationHoldsExactly` | api/internal/auth/revoker.go:133-165 | A terminated session's token authorises again if and only if it outlives the revocation entry |
| `Sessions.OrdinaryTokensStayRevoked` | api/internal/auth/revoker.go:133-165 | Tokens issued by a login or refresh never outlive a termination |
| `Sessions.TerminatedSessionsStayTerminated` | api/internal/auth/revoker.go:133-165 | If no token of a session outlives its revocation entry, none of them authorises again in any continuation and no new one is issued |
| `Sessions.RevokeTerminatesExactly` | api/internal/auth/revoker.go:133-146 | A termination achieves that if and only if every token of the session runs out with the entry |
| `Sessions.ResetSessionCanOutliveItsTermination` | api/internal/channel/auth_handler.go:706-718 | A concrete run in which a reset's session authorises after it was terminated |
| `Sessions.SessionRevoker.RevokeUserBefore` | api/internal/auth/revoker.go:99-115 | The user's cutoff becomes the later of the old and the new one, and no other cutoff changes |
| `Sessions.SessionRevoker.IsUserRevoked` | api/internal/auth/revoker.go:118-129 | Revoked: no token with this issue time authorises in any continuation.  Not revoked: it authorises exactly while it is unexpired and its session not revoked |
| `Sessions.SessionRevoker.Revoke` | api/internal/auth/revoker.go:133-146 | Records the expiry for the session, ignores a blank one, and leaves cutoffs alone |
| `Sessions.SessionRevoker.IsRevoked` | api/internal/auth/revoker.go:148-165 | Answers by the entry's expiry; dropping a stale entry changes no answer from then on |
| `Sessions.RevokeUserSessions` | api/internal/channel/session_revocation.go:18-32 | Records a whole-second cutoff later than now by at most a second |
| `KeyBackup.KeptBackupsAlwaysHaveTheirBlobs` | api/internal/chat/keypackages.go:595-689 | Whichever calls fail, after every single step of every request the live record and the kept versions have all their blobs |
| `KeyBackup.OrphansAreExact` | api/internal/chat/keypackages.go:595-689 | After a request the unreferenced blobs are exactly those from before plus an explicit leak: failed cleanups, or a live backup that was not read or not archived |
| `KeyBackup.CleanRunsLeakNothing` | api/internal/chat/keypackages.go:595-689 | Runs without failed cleanups, reads or archive inserts leave no unreferenced blob |
| `KeyBackup.VersionsDangleExactly` | api/internal/store/store_mongo_keypackages.go:388-418 | A listed version loses a blob if and only if archiving stopped before removing its record and the blob's deletion went through |
| `KeyBackup.ListedVersionCanDangle` | api/internal/store/store_mongo_keypackages.go:388-418 | A run from an empty vault in which that happens |
| `KeyBackup.SupersededBackupStaysOpenable` | api/internal/chat/keypackages.go:661-689 | A replaced backup stays on record with its blobs through as many later uploads as the archive has further places |
| `KeyBackup.AcceptedUploadKeepsHistoryExactly` | api/internal/chat/keypackages.go:635-652 | An accepted unforced upload over a stored backup records at least the messages held before: with a transcript, if and only if that backup was read or enough is claimed; without one, if and only if nothing was held |
| `KeyBackup.UnforcedUploadCanShrinkHistory` | api/internal/chat/keypackages.go:635-652 | A concrete unforced, accepted upload that shrinks the recorded history although the stored backup was read |
| `KeyBackup.FailedReadLetsHistoryShrink` | api/internal/chat/keypackages.go:635-652 | And one with an empty transcript, after a failed read |
| `KeyBackup.GuardedHistoryNeverShrinks` | api/internal/chat/keypackages.go:595-689 | Over runs of unforced uploads with transcripts and readable backups the recorded history never shrinks |
| `KeyBackup.DeletionsEffect` | api/internal/chat/keypackages.go:676-689 | The pruning loop removes exactly the pruned versions' blobs that can be deleted, none of them referenced by a kept record at any step |
| `KeyBackup.FailureEffect` | api/internal/chat/keypackages.go:629-659 | A failed request leaves records untouched and at worst its own undeletable blobs behind |
| `KeyBackup.ArchiveSplits` | api/internal/store/store_memory_keypackages.go:298-315 | Archiving loses no reference: each old one is still on record or among those removed, and no kept version shares a blob with a pruned one |
| `KeyBackup.Stores.Handle` | api/internal/chat/keypackages.go:595-689 | The planned changes in order, under any failures; refused as a conflict if and only if unforced and claiming less than the backup that was read and its tail hold; with no failing put the upload is live with its claimed count and the backup it replaces heads the archive; a refused or failed one leaves the records alone |
| `KeyBackup.HandledExactly` | api/internal/chat/keypackages.go:595-689 | The same of the plan: which answer an upload gets, exactly, and what is on record afterwards |
| `LiveRegistry.IndexIsTheOwnerMap` | api/internal/live/registry.go:43-84 | In every reachable state the per-user index and the owner map are inverses, and a user has an entry exactly if a channel has them as owner |
| `LiveRegistry.OfferedOncePerListing` | api/internal/live/registry.go:92-116 | A finished delivery offered its event to each channel once per listing of its owner, or once in a broadcast; readers get it as often as it was sent |
| `LiveRegistry.DeliveryIsAFilteredScan` | api/internal/live/registry.go:92-116 | With distinct recipients that is a full scan filtered by owner, each target once, and delivered plus dropped is targeted |
| `LiveRegistry.NoSendOnAClosedChannel` | api/internal/live/registry.go:60-76 | No interleaving ever sends on a closed channel |
| `LiveRegistry.OfferedIsDroppedExactlyWhenFull` | api/internal/live/registry.go:92-116 | A try-send is dropped if and only if the channel holds 64 events; otherwise the event goes in behind them |
| `LiveRegistry.ReaderTakesTheOldest` | api/internal/live/registry.go:43-58 | A reader takes the oldest event out of its channel |
| `LiveRegistry.DroppedIsExact` | api/internal/live/registry.go:118-128 | In every state the dropped counter is the sum over the deliveries that have added to it, each once, and with what finished ones have still to add it makes up all they dropped; adding comes after the lock is released |
| `LiveRegistry.LiveIndex.Add` | api/internal/live/registry.go:43-58 | The new channel is open, empty and belongs to the user given; all others are as they were |
| `LiveRegistry.LiveIndex.Cancel` | api/internal/live/registry.go:58-84 | The channel is closed and belongs to nobody; all others are as they were; repeated, it changes nothing |
| `LiveRegistry.LiveIndex.Deliver` | api/internal/live/registry.go:92-128 | The loops are a run of the transition system ending in one finished delivery of this event to the present owners; it is dropped only for channels that are full, and other contents of the channels stay as they are |
| `CommitStorm.AnswersAreExact` | api/internal/chat/storm.go:48-71 | Despite the sweep, each answer is the exact number of commits since the window opened, and the alarm is raised exactly at the threshold-th |
| `CommitStorm.OneAlarmPerWindow` | api/internal/chat/storm.go:44-71 | No window raises the alarm twice |
| `CommitStorm.StormIsAlarmed` | api/internal/chat/storm.go:65-70 | A window that holds enough commits has raised it |
| `CommitStorm.SeenIsFaithful` | api/internal/chat/storm.go:52-63 | What is remembered is the true window of the whole history, and what is forgotten has expired |
| `CommitStorm.StormDetector.Sweep` | api/internal/chat/storm.go:56-60 | The loop deletes exactly the expired windows |
| `CommitStorm.StormDetector.Observe` | api/internal/chat/storm.go:48-71 | The detector as it runs gives the answers the history determines |
| `Ident.ParseAfterString` | api/internal/ident/ident.go:98-164 | Every valid identifier, whatever octets its local part holds, parses back from its own spelling |
| `Ident.StringIsInjective` | api/internal/ident/ident.go:98-100 | Two valid identifiers are spelled the same exactly if they are the same |
| `Ident.AcceptedIsValid` | api/internal/ident/ident.go:108-164 | Whatever is accepted names a valid identifier whose own spelling gives it back |
| `IdentGrammar.ParseExactly` | api/internal/ident/ident.go:108-164 | A string is accepted as an identifier if and only if it spells it by the grammar: scheme, authority with an empty port at most, path of kind and local part, and an empty query and fragment at most |
| `IdentGrammar.CaseDoesNotMatter` | api/internal/ident/ident.go:136-139 | Scheme and host in any case spell the same identifier |
| `IdentGrammar.AliceSpelledOut` | api/internal/ident/ident_test.go:5-12 | The spelling of one identifier of each kind, octet by octet |
| `IdentGrammar.DecodeExactly` | api/internal/ident/ident.go:123-160 | Percent-decoding yields given octets if and only if the string spells them, each as itself or as an escape in either case of hex |
| `IdentGrammar.PlainHostIsLowered` | api/internal/ident/ident.go:136-139 | A host without escapes names itself with every upper-case letter lowered |
| `IdentGrammar.TrimmedAtTheEnds` | api/internal/ident/ident.go:189-189 | What is trimmed off either end, as long as there is any, is the Unicode white-space character that stands there, by code point |
| `IdentGrammar.SignsOfPaths` | api/internal/ident/ident.go:191-195 | The signs a segment and a path keep, and those that may stand in a path already encoded, one by one |
| `IdentGrammar.ValidDomainExactly` | api/internal/ident/ident.go:199-224 | A domain is valid if and only if it is 1 to 253 of the allowed octets with a dot, no dots in a row or at the ends, no dash beside a dot or an end, and no 64 octets without a dot |
| `Ident.EveryIdentifierHasOtherSpellings` | api/internal/ident/ident.go:72-76 | The documented converse fails for every identifier: an empty query or fragment is accepted too |
| `Ident.SpellingIsCanonicalExactly` | api/internal/ident/ident.go:72-76 | An accepted spelling is its identifier's own if and only if scheme and host are lower-case, the host has no colon or escape, there is no query or fragment sign, the kind is one letter, and every local octet is kept or escaped in upper-case hex exactly as required |
| `Ident.CanonicalLocalIsEncoded` | api/internal/ident/ident.go:189-195 | A local part that passes that scan is the encoding of what it decodes to |
| `Ident.HostNameOfPlain` | api/internal/ident/ident.go:136-139 | Decoding, trimming and lower-casing leave a plain host as it is |
| `Ident.DecodeOctets` | api/internal/ident/ident.go:123-160 | The decoding loop computes the percent-decoding, in its host and its path mode, or refuses |
| `Ident.LowerOctets` | api/internal/ident/ident.go:189-189 | The loop lower-cases character by character |
| `Ident.TrimSpace` | api/internal/ident/ident.go:189-189 | The two loops trim white space off both ends |
| `Ident.EscapeRoundTrip` | api/internal/ident/ident.go:191-195 | Percent-encoding loses no octet as long as the percent sign itself is encoded |
| `Ident.PairKeyIsSymmetric` | api/internal/ident/ident.go:174-187 | The key does not depend on the order of the pair |
| `Ident.PairOctetsName` | api/internal/ident/ident.go:174-187 | Two pairs hash the same octets if and only if they are the same unordered pair |
| `Ident.PairKeysNamePairs` | api/internal/ident/ident.go:166-187 | Unless those octets collide, a key belongs to one unordered pair |
| `Ident.IsValidDomain` | api/internal/ident/ident.go:199-224 | The nested loops accept exactly lower-case dotted names with well-formed labels |
| `Ident.ParseIdentifier` | api/internal/ident/ident.go:108-164 | The scan, the cuts and the decoding loops of the parser compute the specified result for every input |
| `Ident.ComputePairKey` | api/internal/ident/ident.go:174-187 | Swapping into order and feeding both spellings to the hasher computes the key |

## Left out

- Group reset: the handler retires the group locally and tells neither hub nor mirrors; one group lifetime is modelled.
- Control messages carry no ids, sequence numbers or timestamps in the order model; those of ordinary messages are in `MessageFanOut`.
- `FederatedOrder` leaves out authorization (`mayRemove`, `checkMirrorSpec`) and the store's not-found errors.
- `FederatedOrder` models signature checking as one setting for the run rather than per peer key lookup.
- `FederatedOrderTheorems.MirrorsAgree`: runs with forged relays, in which it fails (`MirrorProgress.ForgedWelcomeIsStored`) and `MirrorsAgreeOnCommits` holds; and ids and numbers of the stored messages, because a mirror stores its own forwarded commit under a fresh local id.
- `FederatedOrderTheorems.DeliveredRelaysCatchUp`: some schedule, not every one, because a relay delivered before its predecessor fails its check and is not sent again by the source.
- `MirrorProgress.MirrorPassesEpochExactly`: forged replies, as in the assumptions above.
- `MessageFanOut.MirrorTranscriptIsTheHubs`: membership notes and the batches of the commit path are written to the hub's log without relay here and are not addressed to anyone.
- `MessageFanOut` treats mirror creation as always starting from an empty message store, as provisioning sends no history.
- `MlsReader.ParseHandshake`: messages longer than 2^62 octets, which no process can address.
- `PushPump`: the 64-bit wrap of the atomic byte counter, which sums of real message sizes do not reach.
- `Receipts.AllHostsAgreeExactly`: the set of mirrors is fixed for the run and all hosts start from equal watermarks.
- `ReplayGuard.Verify`: the header and signature checks are inputs of the request; canonical strings and key lookup are not modelled, and the skew test and the store share one clock reading.
- `Sessions`: steps are atomic in one process; persistence, roles, blocked accounts, signing keys, and the early returns on an empty user id or a missing issue time are not modelled.
- `KeyBackup.Stores.Handle`: the tail of single messages enters as the count read; its truncation after a checkpoint, request decoding and the empty-field refusals are left out, and so are concurrent uploads of one user.
- `KeyBackup.ArchiveSplits`: the archive's order is newest first by position, where the document store sorts by update time.
- `LiveRegistry.LiveIndex.Deliver`: the class runs one delivery at a time; interleaved deliveries and readers are the transition system's. The callbacks for the first and last subscriber and the log line are left out.
- `CommitStorm.StormIsAlarmed`: the history is of the commits shown to the detector, which are those the hub's own devices post (`api/internal/chat/mlsgroup.go:436-447`); forwarded ones are never shown to it.
- `CommitStorm.AnswersAreExact`: times are integers, without the saturation of Go durations beyond 292 years.
- `Ident.ParseAfterString`: IPv6 literals as domains, and which of its errors a refusal returns; `net/url` is modelled for printable ASCII.
- `IdentGrammar.ParseExactly`: IPv6 literals as hosts, and which of its errors a refusal returns, likewise.
- `Ident.IsValidDomain`: the branch that accepts an IPv6 literal, for the same reason.
- `Ident.AcceptedIsValid`: raw spellings with an IPv6 literal as host, which the model refuses.
- `Ident.PairKeysNamePairs`: the hash and its base64 text are one parameter.
- HTTP, JSON, status codes, logging, the Redis and RabbitMQ code, calls, and the push senders are plumbing around these steps.
- Nodelists, one-time codes, channels, admin handlers and configuration would only add easy members.
