# gohookbridge: a verified model of the server core

gohookbridge receives webhooks, keeps recent ones in memory, hands them to connected clients, and stores
its configuration in a Raft-replicated key/value store. These files model the stateful parts of that server
in Dafny and prove what they promise over all inputs and all runs.

| Part | Files | What is modelled |
|---|---|---|
| Shared | `Basics`, `Text` | optional values, instants, filtering, in-place compaction; byte-ordered strings, numerals |
| Event broker | `RingModel`, `RingBuffer`, `SubscribeRace`, `Subscriber`, `Delivery`, `Broker` | the circular buffer with its byte budget, TTLs and cleanup; bounded queues; the race between publishing and subscribing, and what becomes of each message |
| Replicated store | `Fsm`, `Seeding`, `FsmReplay`, `UserReplay`, `UserIndex`, `LogStore`, `PrefixScan`, `AtRest` | the command state machine with rollback and snapshots, log replay, the username index, log keys, listings, sealed secrets and key rotation |
| Cluster | `Discovery`, `Membership`, `GenerationStore`, `Fencing`, `Watchdog` | who bootstraps, membership reconciliation, generation fencing after a forced recovery, the watchdog that triggers it |
| Service | `SlidingWindow`, `BanTracker`, `Delegation`, `Authorization`, `Replay` | rate limits, bans, delegated administration, permission checks, the client's replay cursor |

Where the source updates state in place, a class carries the same fields and each method is proved against a
function of the old state; the properties are lemmas about those functions and about whole runs of them. The
clock is a parameter. Replies of other systems (Secret, DNS, Raft calls, the transport) are parameters or
non-deterministic outcomes, so the lemmas hold for all of them.

Where the code differs from what its comments or names suggest, the model follows the code:

- `evictOldestLocked` clears `full` only when tail meets head, so `lenLocked` overcounts after an eviction
  from a full ring, and `Append` may evict one entry more than needed. `AppendEvictsMinimallyIff` says exactly
  when it does not.
- `Get` with a limit returns the oldest matches, not the newest.
- Messages that a subscriber sees twice always end its history, but they are a front part of the live offers
  only under a condition (`DuplicatesLeadOffersIff`, with an example where they are not).
- A cleanup stays invisible although TTLs change exactly if nothing fresh at the lookup was expired at the
  cleanup (`CleanUpInvisibleIff`).
- Replay of the log on a later state converges for create-user exactly if no creation spoils it
  (`UserReplay.ConvergesIff`): a name that passes to a new ID, or a creation that was refused, can.
- A generation that cannot be read counts as 0, which breaks the fence (`FailedReadBreaksFence`), and so does a
  failed bump; `FailedReadHarmlessIff` and `FailedBumpHarmlessIff` say when they do no harm.
- In the "other nodes" form of the peer list a node without an ID always bootstraps (`NamelessAlwaysBootstraps`).
- A repeated failure with the same fingerprint does not refresh its time (`RepeatDoesNotRefresh`); `BansIffCounted` is the exact rule.
- `DeleteRange` does not end when the upper bound is the greatest 64-bit number (`LoopRunsForeverIff`).
- The replay cursor moves a whole second past the newest delivery, so a delivery inside that second that is
  listed a round later is lost (`LateListingIsLost`).

## Model

| member | source | states |
|---|---|---|
| RingModel.ForcedIsLeast | pkg/nats/buffer.go:89-98 | the byte-budget loop drops the least number of oldest entries after which the new payload fits or nothing is left |
| RingModel.AppendKeepsBounds | pkg/nats/buffer.go:86-111 | appending keeps at most maxSize entries, and the entries fit the byte budget or the new one is alone |
| RingModel.AppendEvictsMinimallyIff | pkg/nats/buffer.go:56-111 | by the lengths of the lists before and after: appending evicts no more than both budgets demand iff the flag is clear, or only it stands for a really full ring that fits the bytes, or not even the newest old entry can stay |
| RingModel.AppendDropsLeast | pkg/nats/buffer.go:86-111 | by the budgets alone: what is left is the old entries less the fewest that must go, or one fewer where the stale flag costs one, then the new entry; and what becomes of the flag |
| RingModel.AppendWithRoomDropsNothing | pkg/nats/buffer.go:90-98 | with the flag clear and room for the bytes nothing is evicted |
| RingModel.StaleFlagCostsAnEntry | pkg/nats/buffer.go:79 | a concrete ring in which the stale flag evicts one entry too many |
| RingModel.ExpiryIsFinal | pkg/nats/buffer.go:115-127 | under a fixed policy an expired entry stays expired |
| RingModel.CutReached | pkg/nats/buffer.go:149-153 | stopping at the limit-th match gives the oldest limit matches |
| RingModel.CleanUpKeepsBounds | pkg/nats/buffer.go:182-208 | cleanup keeps the size and byte bounds, and sets the flag iff the ring is full |
| RingModel.CleanUpKeepsUnexpired | pkg/nats/buffer.go:182-208 | an entry goes iff it has expired |
| RingModel.CleanUpInvisible | pkg/nats/buffer.go:115-208 | for fixed TTLs, any later lookup answers the same with or without a cleanup |
| RingModel.CleanUpInvisibleIff | pkg/nats/buffer.go:45-208 | with any TTL changes in between, a cleanup is invisible to every later lookup of a channel iff, by the ages in force at the two times, nothing still fresh at the lookup was expired at the cleanup |
| RingModel.CleanUpVisibleAfterTtlChange | pkg/nats/buffer.go:45-53 | with a TTL raised in between, a cleanup can be seen |
| RingModel.RunStaysBounded | pkg/nats/buffer.go:86-208 | every run of appends and cleanups keeps the bounds |
| RingModel.RunKeepsNewest | pkg/nats/buffer.go:86-111 | without byte budget and cleanup the ring holds exactly the last maxSize messages |
| RingModel.RunKeepsLongestFit | pkg/nats/buffer.go:86-111 | over every run of appends under both budgets in which the flag costs nothing, the ring holds the newest messages, as many as the budgets allow |
| RingModel.RunKeepsSuffix | pkg/nats/buffer.go:86-111 | over every run of appends it holds a run of the newest messages that ends with the last |
| RingModel.LookupMeans | pkg/nats/buffer.go:115-156 | element by element: the channel's entries after since that are within the age in force, and with a limit the first of them |
| RingBuffers.WrapIsModulo | pkg/nats/buffer.go:77 | the index step is the remainder modulo the ring size |
| RingBuffers.RingBuffer.constructor | pkg/nats/buffer.go:32-43 | a new ring is empty; a size that is not positive becomes 1 |
| RingBuffers.RingBuffer.SetChannelTTL | pkg/nats/buffer.go:45-53 | a TTL that is not positive is removed; the age in force is the TTL if shorter than the maximum age |
| RingBuffers.RingBuffer.LenLocked | pkg/nats/buffer.go:56-64 | zero exactly for an empty ring, never below the live count, and equal to it exactly when the flag is not stale |
| RingBuffers.RingBuffer.EvictOldestLocked | pkg/nats/buffer.go:68-82 | drops the oldest live entry and zeroes its slot; the flag stays set unless the ring becomes empty |
| RingBuffers.RingBuffer.EvictForBytes | pkg/nats/buffer.go:89-98 | the byte-budget loop ends and drops exactly the forced entries, counted on live entries although the code counts with the stale flag |
| RingBuffers.RingBuffer.Append | pkg/nats/buffer.go:86-111 | what is left is a suffix of the old entries and the new one: the forced entries are gone, and one more if the flag was still set |
| RingBuffers.RingBuffer.Get | pkg/nats/buffer.go:132-156 | the payloads of the oldest limit live, unexpired entries of the channel after since, in insertion order |
| RingBuffers.RingBuffer.RetainedBytes | pkg/nats/buffer.go:159-163 | the byte counter is the sum of the live payload lengths |
| RingBuffers.RingBuffer.EvictExpired | pkg/nats/buffer.go:182-208 | the rebuild keeps exactly the unexpired entries in order, fixes the byte count and the stale flag |
| SubscribeRace.StepKeepsInv | pkg/nats/broker.go:205-263 | each atomic step of publisher, cleanup and subscriber keeps the invariant that ties ring, history and offers to the published log |
| SubscribeRace.RunKeepsInv | pkg/nats/broker.go:205-263 | the invariant holds in every interleaving |
| SubscribeRace.HistoryIsContiguous | pkg/nats/broker.go:242-263 | history is one contiguous run of the channel's messages, from the oldest eligible one to the newest appended one or to the drain limit |
| SubscribeRace.NoGap | pkg/nats/broker.go:205-263 | each message is appended before history is read or offered to the live queue; appended ones are in history exactly when eligible and within the drain limit |
| SubscribeRace.DuplicatesEndHistory | pkg/nats/broker.go:242-295 | the messages seen twice are a suffix of history without a hole |
| SubscribeRace.DuplicatesLeadOffersIff | pkg/nats/broker.go:242-295 | if there are any, they are also a prefix of the live offers iff the first offer was itself eligible for history |
| SubscribeRace.DuplicateBehindFirstOffer | pkg/nats/broker.go:242-295 | an interleaving in which they are not |
| Subscribers.StepConserves | pkg/nats/broker.go:75-106 | each send, receive and ack step, split at the atomic counter updates, keeps the byte and message accounts, and the clamp at 0 is never needed |
| Subscribers.RunConserves | pkg/nats/broker.go:75-106 | in every interleaving, delivered followed by queued is what was accepted, offers are accepted plus dropped, and a positive budget is never exceeded |
| Subscribers.OfferOutcome | pkg/nats/broker.go:91-106 | an undisturbed offer is accepted iff it fits queue and budget; otherwise only the drop is counted |
| Subscribers.OfferAcceptedIff | pkg/nats/broker.go:91-106 | a message is refused iff the queue is full or a positive budget has no room beside what is queued and unacknowledged |
| Subscribers.Subscriber.TrySend | pkg/nats/broker.go:91-106 | the method has the outcome of an offer and reports whether it was accepted |
| Subscribers.Subscriber.Ack | pkg/nats/broker.go:75-82 | any number is subtracted and the counter stops at 0; the length of a held message is credited back exactly, without stopping |
| Delivery.OffersAreAccounted | pkg/nats/broker.go:75-106 | over every interleaving each offer gets one verdict; accepted are exactly the positive ones, in order, and the drop counter is the number of the others |
| Delivery.EveryMessageHasAFate | pkg/nats/broker.go:75-295 | from publishing to delivery: each message of the channel is in history, accepted by the queue at its place, counted as dropped or still on its way; only one appended before registration can be missed, by being ineligible or beyond the drain limit |
| Brokers.ExtractChannelInverts | pkg/nats/broker.go:223-236 | the callback recovers the channel that Publish put into the subject |
| Brokers.Broker.Subscribe | pkg/nats/broker.go:242-263 | registers one new empty queue for the channel only, then reads history; a zero since means the maximum age |
| Brokers.Broker.Unsubscribe | pkg/nats/broker.go:265-278 | closes the queue and removes it from the registry; for a channel without queues nothing happens |
| Brokers.WithoutMeans | pkg/nats/broker.go:265-278 | exactly this queue goes, with its channel if it was the last one, and no other channel is touched |
| Brokers.WithMeans | pkg/nats/broker.go:242-250 | registering adds exactly this queue to its channel and leaves all others registered |
| Brokers.Broker.Fanout | pkg/nats/broker.go:280-295 | every queue of the channel and no other gets the offer, none of them closed; the broker's drop counter stays the sum of all queues' drops |
| Brokers.Broker.OnMessage | pkg/nats/broker.go:205-212 | a message of a channel is appended, then offered; one without a channel is ignored |
| Fsm.BatchSucceedsIff | internal/repository/fsm.go:164-192 | whether a transaction goes through depends on its actions alone, not on what is stored |
| Fsm.FailedCommandChangesNothing | internal/repository/fsm.go:52-82 | a command that reports an error leaves the bucket unchanged; this is bbolt's all-or-nothing `Update`, an assumption of the model, which the methods below carry through every branch |
| Fsm.CreateUserFailsAfterFirstPut | internal/repository/fsm.go:137-160 | a user without username fails after its record was put, and the rollback undoes that |
| Fsm.BootstrapSucceedsIff | internal/repository/fsm.go:194-301 | bootstrap succeeds iff the bucket is empty, every user has a usable name and hash, and every channel an ID |
| Fsm.FSM.Apply | internal/repository/fsm.go:52-82 | each log entry has the effect and the error of its command |
| Fsm.FSM.ApplySet | internal/repository/fsm.go:303-311 | stores the value in one transaction |
| Fsm.FSM.ApplyDelete | internal/repository/fsm.go:313-321 | removes the key in one transaction |
| Fsm.FSM.ApplyCreateChannel | internal/repository/fsm.go:123-135 | stores the channel unless the key exists |
| Fsm.FSM.ApplyCreateUser | internal/repository/fsm.go:137-160 | stores user and username index together unless the user key exists |
| Fsm.FSM.ApplySetMulti | internal/repository/fsm.go:162-192 | all keys are validated before any write; the writes go through together or not at all |
| Fsm.FSM.ApplyBootstrapPayload | internal/repository/fsm.go:194-301 | the seeding loops write users, indexes, channels and settings in order in one transaction |
| Fsm.FSM.Persist | internal/repository/bolt.go:284-314 | the snapshot is what the live bucket holds when it is written |
| Fsm.FSM.Restore | internal/repository/fsm.go:88-121 | whatever was stored before, the bucket becomes exactly the snapshot, in whatever order its records are put |
| Fsm.RestoreMeans | internal/repository/fsm.go:88-121 | a restore that fails changes nothing, one that succeeds leaves the snapshot alone, an empty stream leaves nothing |
| Seeding.SeededUserIsStored | internal/repository/fsm.go:237-264 | after bootstrap every user is stored with the given hash, roles and channels, and indexed, unless a later one has its name |
| Seeding.SeededChannelIsStored | internal/repository/fsm.go:266-277 | every channel's record is stored as given, unless a later one has its ID |
| Seeding.SeededSettingsAreStored | internal/repository/fsm.go:194-301 | every setting that is present is stored as given |
| FsmReplay.CommandEffectCorrect | internal/repository/fsm.go:52-160 | each command is, for every key but a username index it writes, one of: keep, replace, create if absent |
| FsmReplay.ReplayConverges | internal/repository/fsm.go:52-135 | for set, delete, multi and create-channel commands: replaying a log on a state that already contains any prefix of it ends where one clean run ends, from any state |
| FsmReplay.SeededConvergesIff | internal/repository/fsm.go:194-301 | a log that seeds the empty store first converges iff the store was emptied again or the rest of the log converges |
| FsmReplay.SeededReplayConverges | internal/repository/fsm.go:52-301 | so such a log of these commands always converges |
| FsmReplay.RepeatedBootstrapsConvergeIff | internal/repository/fsm.go:194-301 | while some key stays stored, later bootstraps are refused and do not affect convergence |
| FsmReplay.RecoversIffConverges | internal/repository/bolt.go:284-314 | for all commands: a snapshot written later than its index, restored over any old contents, recovers the log iff the rest of the log converges |
| FsmReplay.SnapshotRecovers | internal/repository/bolt.go:284-314 | for a log that may seed the store and then holds these commands, it always does |
| UserReplay.RedoneIsExecuted | internal/repository/fsm.go:137-160 | which create-user commands a replay executes can be told from the log and the state it starts on |
| UserReplay.ConvergesIff | internal/repository/fsm.go:52-160 | with create-user commands, from any state and at any prefix, replay converges iff no create-user spoils it: executed in only one of the two runs, last to write its index key, and leaving something else there than the other run |
| UserReplay.KeptLogConverges | internal/repository/fsm.go:52-160 | if each username serves one ID and no creation is refused at its first occurrence, replay converges at every prefix |
| UserReplay.UserRunConverges | internal/repository/raft.go:1244-1297 | over every run of user creations, updates and deletions in which each username serves one ID, with other commands between them, the log replayed on any prefix of it ends where the run ended |
| UserReplay.SeededUserLogConvergesIff | internal/repository/fsm.go:137-301 | the exact condition for logs that seed the store first |
| UserReplay.UserSnapshotRecoversIff | internal/repository/bolt.go:284-314 | the exact condition under which a late-written snapshot recovers a log with create-user commands |
| UserReplay.CreateUserReplayLosesIndex | internal/repository/fsm.go:137-160 | for any two IDs and any name: create, delete and create under the other ID, replayed on its result, loses the index entry |
| UserReplay.RefusedCreateLeavesIndex | internal/repository/fsm.go:137-160 | for any ID: a creation refused because the ID exists under another name, replayed after the ID's deletion, leaves an index entry without a user |
| UserIndex.UserStore.CreateUser | internal/repository/raft.go:1244-1266 | an empty ID defaults to the username; one create-user command is applied |
| UserIndex.UserStore.UpdateUser | internal/repository/raft.go:1268-1286 | record, new index entry and removal of the old index entry are one batch |
| UserIndex.UserStore.DeleteUser | internal/repository/raft.go:1288-1297 | record and index entry are removed in one batch |
| UserIndex.UserKeyIsNoIndexKey | internal/repository/raft.go:1168-1170 | no user key is an index key |
| UserIndex.PlainKeysAreValidIff | internal/repository/fsm.go:347-360 | for slash-free names the store takes the keys iff the name has no two dots in a row |
| UserIndex.WithIdMeans | internal/repository/raft.go:1244-1247 | a given ID is kept and a missing one is the username |
| UserIndex.LookupIsScan | internal/repository/raft.go:1181-1191 | where index and records agree, lookup by username finds exactly the one user that carries it |
| UserIndex.CreateAgreesIff | internal/repository/raft.go:1244-1266 | a create keeps the agreement iff no other user has the name |
| UserIndex.UpdateAgreesIff | internal/repository/raft.go:1268-1286 | an update, renaming or not, keeps the agreement iff no other user has the name |
| UserIndex.MutationKeepsInv | internal/repository/raft.go:1244-1297 | each mutation, bootstrap and unrelated commands included, keeps every index entry pointing to a user with that name |
| UserIndex.SeedingKeepsAll | internal/repository/fsm.go:237-264 | after bootstrap, index and records agree |
| UserIndex.RunKeepsIndexSound | internal/repository/raft.go:1181-1297 | in every run over non-empty slash-free names, an index entry points to an existing user with that username |
| UserIndex.RunKeepsAgreement | internal/repository/raft.go:1181-1297 | if no step takes a name held by another user, index lookup and scan agree in every run |
| LogStore.BtoiInvertsItob | internal/repository/bolt.go:181-205 | decoding an encoded 64-bit index gives it back |
| LogStore.ItobInvertsBtoi | internal/repository/bolt.go:181-205 | every eight-byte key encodes an index |
| LogStore.KeyOrderIsIndexOrder | internal/repository/bolt.go:181-200 | byte order of keys is numeric order of indices |
| LogStore.FirstKeyIffLeast | internal/repository/bolt.go:45-60 | the cursor's first key encodes the least index |
| LogStore.LastKeyIffGreatest | internal/repository/bolt.go:62-77 | the cursor's last key encodes the greatest index |
| LogStore.RemovalKeepsContiguousIff | internal/repository/bolt.go:116-129 | removing a range keeps the log contiguous iff it cuts no hole; removing an end never does |
| LogStore.AppendKeepsContiguous | internal/repository/bolt.go:97-114 | a batch that continues the log keeps it contiguous and is stored entry by entry |
| LogStore.LastEntryIsStored | internal/repository/bolt.go:97-114 | of several entries with one index the last is stored |
| LogStore.OthersStay | internal/repository/bolt.go:97-114 | every other index keeps what it had |
| LogStore.LoopRunsForeverIff | internal/repository/bolt.go:116-129 | the deletion loop never ends iff it starts and the upper bound is the greatest 64-bit number |
| LogStore.BoltLogStore.FirstIndex | internal/repository/bolt.go:45-60 | the least stored index, 0 for an empty log |
| LogStore.BoltLogStore.LastIndex | internal/repository/bolt.go:62-77 | the greatest stored index, 0 for an empty log |
| LogStore.BoltLogStore.GetLog | internal/repository/bolt.go:79-91 | the entry stored under the index, if any |
| LogStore.BoltLogStore.StoreLogs | internal/repository/bolt.go:97-114 | the batch is stored; a later entry with the same index wins |
| LogStore.BoltLogStore.DeleteRange | internal/repository/bolt.go:116-129 | removes exactly the indices of [low, high] |
| Text.PrefixRunEnds | internal/repository/bolt.go:253-267 | in byte order the keys with a prefix lie together |
| PrefixScan.ListKeys | internal/repository/bolt.go:253-267 | seeking and stopping at the first other key finds every key with the prefix |
| PrefixScan.ListChannels | internal/repository/raft.go:1003-1038 | each stored channel is listed once and nothing else; it fails iff a channel record cannot be decoded |
| PrefixScan.ListUsers | internal/repository/raft.go:1214-1242 | each stored user that decodes is listed once and nothing else |
| PrefixScan.ListingIgnoresOtherKeys | internal/repository/raft.go:1003-1038 | extra keys under the prefix do not change a listing |
| PrefixScan.AclKeysAreNoRecords | internal/repository/raft.go:1632 | access-list keys are such keys |
| Discovery.ResolveStatic | internal/repository/raft_discovery.go:192-212 | the configured list in its order if the node is in it; otherwise some arrangement of it and the node, sorted by ID |
| Discovery.SortedArrangementUnique | internal/repository/raft_discovery.go:205-210 | with distinct IDs there is one sorted arrangement |
| Discovery.SameListBootstrapsOnce | internal/repository/raft.go:358-380 | if all nodes list the same peers in the same order, exactly the first bootstraps |
| Discovery.OthersListBootstrapsOnce | internal/repository/raft_discovery.go:192-249 | if each node lists exactly the others in any order, exactly the node with the smallest ID bootstraps |
| Discovery.NamelessAlwaysBootstraps | internal/repository/raft_discovery.go:192-249 | a node without an ID that is not listed itself always bootstraps |
| Discovery.PodOrdinalOfPodName | internal/repository/raft_discovery.go:171-185 | the ordinal is read back from a pod's name |
| Discovery.PodOrdinalOnlyOf | internal/repository/raft_discovery.go:171-185 | only the StatefulSet's name, a dash, at most a sign and digits have an ordinal |
| Discovery.OnlyOrdinalZeroBootstraps | internal/repository/raft_discovery.go:121-166 | in the DNS form exactly ordinal 0 bootstraps, and the server's host-name test picks the same pod |
| Membership.RaftLeader.ReconcileMembership | internal/repository/raft.go:599-671 | for every iteration order: it succeeds iff no call fails, then every server ends as the addresses and the DNS say and exactly the changes are reported; a failed call stops on the way there, each step changes one server, and a server whose address is the desired one is never touched |
| Membership.RaftLeader.AddMissing | internal/repository/raft.go:624-638 | the first loop adds exactly the missing resolvable peers |
| Membership.RaftLeader.UpdateAddresses | internal/repository/raft.go:640-658 | the second loop replaces exactly the changed addresses and touches no server that is in place |
| Membership.RaftLeader.ReplaceServer | internal/repository/raft.go:648-656 | removal and addition of one server, as two changes |
| Membership.ByIdMeans | internal/repository/raft.go:608-613 | the desired servers are the IDs of the list, each with its last address; entries without ID do not count |
| Membership.FinalEndsRight | internal/repository/raft.go:624-713 | by addresses and DNS alone: a literal or malformed desired address is taken over; a name that exists too, unless the old address is what it resolves to; with a name that does not exist a server keeps its address and is not added; others go |
| Membership.RaftLeader.RemoveExtra | internal/repository/raft.go:660-669 | the third loop removes exactly the servers that are not desired |
| Membership.FinalMembers | internal/repository/raft.go:624-669 | the final members are the desired ones that were in already or resolve; none is newly added unresolved |
| Membership.SameTargetFromBetween | internal/repository/raft.go:599-671 | a run that failed half way is completed by the next one with the same result |
| Membership.FinalIsStable | internal/repository/raft.go:599-713 | a second reconciliation changes nothing |
| Membership.MajoritiesIntersect | internal/repository/raft.go:640-658 | majorities before and after a single-server change intersect |
| AtRest.OpenInvertsSeal | internal/repository/raft.go:241-273 | a sealed text opens to itself, even one that looks like an envelope, under any keys that include the sealing key |
| AtRest.EncryptedNeedsKey | internal/repository/cryptokeeper.go:104-137 | what is encrypted under a key does not open under keys without it |
| AtRest.EnvelopeLookalikeIsNotPlain | internal/repository/raft.go:259-273 | text that looks like an envelope cannot be stored unsealed and read back |
| AtRest.MigrateChannelIdempotent | internal/domain/types.go:149-160 | migrating a channel twice is migrating it once |
| AtRest.MigrateChannelMeans | internal/domain/types.go:149-160 | only a missing webhook secret and the encryption mode change, to the first signature and to e2e, exactly where they should |
| AtRest.RawConfigMeans | internal/repository/raft.go:1091-1122 | each half of the configuration comes from its own record |
| AtRest.RaftStore.SealString | internal/repository/raft.go:241-257 | with keys a non-empty text becomes an envelope that holds it encrypted under the primary key, without keys it is stored as it is; it fails only without a usable primary key |
| AtRest.RaftStore.SealChannel | internal/repository/raft.go:275-295 | every secret field of the channel is sealed, none is left in clear, the rest is kept |
| AtRest.RaftStore.SealProviders | internal/repository/raft.go:1403-1419 | every client secret is sealed, none is left in clear, the rest is kept |
| AtRest.RaftStore.ListChannels | internal/repository/raft.go:1003-1038 | every channel opened and promoted; it fails iff one cannot be opened |
| AtRest.RaftStore.MigrateAtRest | internal/repository/raft.go:1322-1352 | after every outcome each secret reads as before (channels up to the idempotent migration); after success also under any keys that include the primary one, and no stored secret is in clear; with a usable primary key it succeeds iff everything was readable and no write was refused |
| GenerationStore.RaftGenerationStore.ReadGeneration | internal/server/raft_generation.go:50-68 | the stored generation; 0 if the Secret is unreachable, missing or malformed |
| GenerationStore.RaftGenerationStore.Bump | internal/server/raft_generation.go:71-96 | the next generation modulo 2^64, or no change on failure |
| GenerationStore.GenerationFile.ReadLocal | internal/server/raft_generation.go:99-110 | the node's recorded generation, 0 if absent or malformed |
| GenerationStore.GenerationFile.WriteLocal | internal/server/raft_generation.go:112-117 | what is written reads back |
| GenerationStore.DecideAtStart | internal/server/server.go:218-262 | the start of a node: bump on an authorised recovery of ordinal 0, wipe exactly on an older local generation; a missing Secret reads as 0 and cannot be bumped |
| GenerationStore.DecideBumpsIff | internal/server/server.go:233-247 | the Secret changes iff ordinal 0 recovers and the bump succeeds, and then by one |
| GenerationStore.DecideWipesIff | internal/server/server.go:248-275 | any node is wiped under the recovery flag, and a node other than ordinal 0 iff its file is older than a generation it can read |
| GenerationStore.WrapDefeatsFencing | internal/server/raft_generation.go:71-96 | at the greatest 64-bit generation a recovery would fence nobody |
| Fencing.StepKeepsInv | internal/server/server.go:218-287 | each step of a start, crash or join keeps the fencing invariant |
| Fencing.LiveNodesAgree | internal/server/server.go:218-287 | in every run, crashes during a start included, all live nodes with Raft state hold the very configuration of ordinal 0, not only one of the same generation |
| Fencing.StaleNodeIsWiped | internal/server/server.go:246-262 | a stopped node with an older configuration is told to wipe it when it starts |
| Fencing.GenerationsMatch | internal/server/server.go:218-287 | if no start is cut short, running state is of the current generation and a stopped node's file matches its state |
| Fencing.FailedReadBreaksFence | internal/server/raft_generation.go:50-68 | one failed read brings an old configuration back next to the recovered one |
| Fencing.FailedReadHarmlessIff | internal/server/raft_generation.go:50-68 | in a calm run with ordinal 0 live, a node whose read fails comes up in agreement iff it had no Raft state or its file carries the current generation |
| Fencing.FailedBumpHarmlessIff | internal/server/server.go:236-245 | a recovery whose bump fails leaves a stopped node in agreement iff it had no Raft state or its file was older than the generation even before |
| Watchdog.Watch | internal/server/server.go:742-772 | the restart comes at the first tick at which no leader was seen for the timeout and one replica is desired, and at no other |
| Watchdog.DueIff | internal/server/server.go:742-772 | by the ticks alone: due iff one replica is desired and an earlier tick at least the timeout ago starts a stretch without a leader |
| Watchdog.NeverDueIf | internal/server/server.go:742-772 | no restart while more replicas are desired or a leader was seen within the timeout |
| SlidingWindow.RateLimiter.Allow | internal/service/ratelimit.go:52-75 | one step of the run model with the given limit and window: sweeps if due, compacts the list in place, and admits iff it holds fewer than the maximum |
| SlidingWindow.RateLimiter.SweepAt | internal/service/ratelimit.go:35-42 | drops exactly the addresses whose last request is before the cutoff |
| SlidingWindow.RateLimiter.MaybeSweep | internal/service/ratelimit.go:44-50 | sweeps at most once per window |
| SlidingWindow.LoginThrottle.Allow | internal/service/ratelimit.go:373-394 | the same per login key, as a step without sweeping, with 10 attempts and 300 seconds for values that are not positive |
| SlidingWindow.LoginThrottle.Clear | internal/service/ratelimit.go:396-400 | forgets one key |
| SlidingWindow.DecisionIsFullLogs | internal/service/ratelimit.go:35-75 | compaction and throttled sweeping never change a decision compared with the full log |
| SlidingWindow.AcceptedIsFullLog | internal/service/ratelimit.go:52-75 | the requests that the limiter's own decisions accept are those of the full log |
| SlidingWindow.DeniedIffWindowFull | internal/service/ratelimit.go:52-75 | a request is denied iff at least max were accepted in (now - window, now] |
| SlidingWindow.EveryWindowIsBounded | internal/service/ratelimit.go:52-75 | over every run the limiter accepts at most max requests in every window (since the last clear, for logins) |
| BanTrackers.BanTracker.RecordFailure | internal/service/ratelimit.go:109-131 | drops what left the window and adds the fingerprint unless it is stored |
| BanTrackers.BanTracker.BanIfSuspicious | internal/service/ratelimit.go:154-171 | bans iff the window holds at least maxUnique fingerprints |
| BanTrackers.BanTracker.RecordAndBan | internal/service/ratelimit.go:226-233 | one attempt: sweep if due, record, decide |
| BanTrackers.BanTracker.SweepFailures | internal/service/ratelimit.go:184-201 | per address exactly the recent failures stay, and empty lists go |
| BanTrackers.BanTracker.IsBanned | internal/service/ratelimit.go:133-146 | answers whether a ban is in force and deletes it when expired |
| BanTrackers.BanTracker.ListBans | internal/service/ratelimit.go:244-266 | lists exactly the bans in force, each with its expiry and number of distinct stored fingerprints |
| BanTrackers.UniqueFailuresAreStored | internal/service/ratelimit.go:109-266 | in every state that number is the number of stored failures |
| BanTrackers.RunKeepsStored | internal/service/ratelimit.go:109-233 | in every state the stored fingerprints of an address are distinct, in time order, and real |
| BanTrackers.BanIsJustified | internal/service/ratelimit.go:154-233 | a ban has at least maxUnique distinct fingerprints with real failures of that address in [now - window, now] |
| BanTrackers.BannedIffLatestInForce | internal/service/ratelimit.go:133-207 | lazy deletion is unobservable: banned iff the latest ban since the last Unban has not expired |
| BanTrackers.BanHolds | internal/service/ratelimit.go:133-233 | a ban holds until it expires unless Unban or a later ban of the address that ends sooner replaces it |
| BanTrackers.CountedFailuresBan | internal/service/ratelimit.go:109-171 | once maxUnique counted failures lie in the window, the ban follows |
| BanTrackers.BanNeedsCountedFailures | internal/service/ratelimit.go:109-171 | a ban has at least maxUnique counted failures in [now - window, now] |
| BanTrackers.BansIffCounted | internal/service/ratelimit.go:109-171 | unless a counted failure is exactly a window old, an address is banned iff maxUnique counted failures lie in the window |
| BanTrackers.RepeatDoesNotRefresh | internal/service/ratelimit.go:116-120 | a run in which two recent fingerprints do not ban because a repeat kept its first time |
| Delegation.Api.EffectivePermissions | internal/service/authorization.go:327-360 | the union of the permissions of the user's roles and of the roles mapped to user or groups; unknown roles give nothing |
| Delegation.EffectiveIff | internal/service/authorization.go:105-114 | permission by permission: it comes from a role of the user or from the role of a mapping meant for the user by ID, name or group |
| Delegation.Api.MayAssignRoles | internal/service/authorization.go:376-413 | true iff every role exists and all its permissions are held, or the wildcard, and the channel scope is covered |
| Delegation.Api.Create | internal/handler/api.go:477-530 | the first failing check decides the answer; only an allowed, new user is stored |
| Delegation.Api.Update | internal/handler/api.go:558-630 | the actor must be able to grant the target's old and new roles; admin cannot be removed; exactly the given fields change |
| Delegation.Api.Delete | internal/handler/api.go:632-668 | deletes unless it is the last administrator |
| Delegation.CountAdmins | internal/handler/api.go:646-651 | counts the administrators other than the target |
| Delegation.Api.Bind | internal/handler/api.go:684-723 | the same rules for roles and channels together |
| Delegation.Api.MapRole | internal/handler/api.go:909-940 | an allowed mapping is added once; an identical one is not added again |
| Delegation.Api.UnmapRole | internal/handler/api.go:942-949 | removes the mapping with that ID |
| Delegation.GrantsNothingNew | internal/service/authorization.go:376-413 | roles an actor may assign bring no permission that was not granted, unless the wildcard was |
| Delegation.ChangeNeedsTargetsRoles | internal/handler/api.go:586-609 | a stored record is changed only by an actor who holds, before the change, every permission of its stored roles and of its new ones, or the wildcard, and reaches its new channels |
| Delegation.AdditionNeedsRoles | internal/handler/api.go:495-506 | a new user or mapping gives only roles and channels that the actor holds and reaches |
| Delegation.AllowedUpdateIsOk | internal/handler/api.go:586-622 | whoever holds and reaches all that, changes exactly the given fields of exactly this record, if admin stays |
| Delegation.AllowedBindingIsOk | internal/handler/api.go:684-723 | the same for roles and channels together |
| Delegation.AllowedCreationIsOk | internal/handler/api.go:477-530 | the same for a new user |
| Delegation.AllowedMappingIsOk | internal/handler/api.go:909-940 | an allowed mapping is there afterwards, for all channels if it names none |
| Delegation.DeletionIsOkIff | internal/handler/api.go:632-668 | a deletion succeeds iff the user is no administrator or another user is |
| Delegation.UnmappingIsOk | internal/handler/api.go:942-949 | deleting a mapping removes it alone |
| Delegation.MissingIsRefused | internal/handler/api.go:477-949 | unknown actors and targets, taken names and failed hashing are refused, each in its way, and change nothing |
| Delegation.RunGuardsAdmins | internal/handler/api.go:558-723 | over every run an administrator's record stays until it is deleted or changed by an actor who holds the wildcard |
| Delegation.HandledGrantsNothingNew | internal/handler/api.go:477-949 | no single request makes a new permission appear, unless the wildcard was granted |
| Delegation.RunNeverEscalates | internal/handler/api.go:477-949 | over every run, what any user can do in any session was granted at the start, or the wildcard was |
| Delegation.RunReachesNothingNew | internal/service/authorization.go:421-431 | over every run, no channel appears in a user's list that was in none at the start, unless the wildcard was |
| Delegation.RunKeepsAdmin | internal/handler/api.go:549-723 | once some user has role admin, some user always does |
| Authorization.Authorizer.UserHasPermission | internal/service/authorization.go:207-233 | element by element: the check passes iff a role of the user, a mapping or the channel's access list gives it, or the user created the channel; equally, iff the permission or the wildcard is among those that count in the channel or the channel admits the user |
| Authorization.Authorizer.CheckGlobalRoles | internal/service/authorization.go:75-100 | passes iff a known role of the user gives the permission or the wildcard; outside the user's channels no channel permission and no wildcard counts |
| Authorization.Authorizer.CheckMappings | internal/service/authorization.go:127-161 | passes iff a mapping meant for the user has a known role with the permission or the wildcard and the scope "*" or, where a channel is asked for, this very channel |
| Authorization.ScopedUserPassesNowhereElse | internal/service/authorization.go:149-157 | a user without roles whose mappings are all for single channels passes no check without a channel and none for another channel |
| Authorization.ChannelPassesIff | internal/service/authorization.go:163-205 | access lists admit readers to read, writers and owners to both, and creators to everything |
| Authorization.EffectiveInIsEffective | internal/service/authorization.go:75-360 | what counts in a channel never exceeds the effective permissions, and equals them where the user's channels and all scopes reach |
| Authorization.RunAuthorizesNothingNew | internal/service/authorization.go:207-413 | over every run of requests, a permission check passed through roles or mappings at the end was granted at the start, or the wildcard was |
| Replay.ReplayCursor.ChooseDeliveries | internal/client/replay.go:34-47 | the loop with break and the in-place reversal give the chosen deliveries, last listed first |
| Replay.ReplayCursor.Round | internal/client/replay.go:49-128 | hands over the chosen deliveries in order, then moves the cursor past the last; a failed fetch stops without moving it |
| Replay.ChosenMirrorsRecent | internal/client/replay.go:34-47 | on a newest-first list, exactly the deliveries at or after the cursor, oldest first |
| Replay.NothingChosenTwice | internal/client/replay.go:123-125 | over all rounds no delivery is chosen twice |
| Replay.ReplayedIffOnTime | internal/client/replay.go:34-125 | a delivery is ever replayed iff the cursor had not passed it when it was first listed |
| Replay.LateListingIsLost | internal/client/replay.go:123-125 | a delivery within a second of the newest, listed a round later, is lost |

## Left out

- Payloads are values: eviction overwrites a shared slice in place (pkg/nats/buffer.go:74), so what happens to payloads already handed out is not captured; nor is the slice that a channel shares with its sealed copy (internal/repository/raft.go:275-295).
- Locks and goroutines: each lock-protected section is one step; interleavings are modelled for publishing against subscribing and for sending against acknowledging only.
- Overflow of Go's `int` and `time.Duration`; 64-bit wrap-around is modelled for log indices and generations.
- NATS, hashicorp/raft, bbolt, HTTP, Kubernetes and DNS: their calls are atomic steps that succeed or fail, and a missing bucket is not modelled; the largest key bbolt accepts is a parameter.
- JSON, base64, bcrypt and encryption are symbolic: injective encodings, and decryption opens what the same key sealed.
- Raft membership: suffrage, refusal of duplicate addresses, and changes that time out but commit later.
- FsmReplay.RepeatedBootstrapsConvergeIff: a bootstrap that succeeds in the middle of a log, on a store that the log has emptied, is not covered; one at the start of the log, and refused ones later, are.
- UserReplay.ConvergesIff: index keys of created users are assumed not to be keys of other create commands, which holds for IDs and names without slashes.
- UserIndex.RunKeepsIndexSound: user IDs and usernames are non-empty and free of slashes; other names can make one key mean two things.
- Delegation.RunNeverEscalates: the handlers run one after the other, with fixed roles and users whose IDs are neither empty, nor "by-username", nor contain slashes; channel scopes of mappings are not compared, as in `EffectivePermissions`; route permissions and session epochs are not modelled.
- Delegation.Api.MapRole: mappings are kept in creation order, not in the order of their random IDs.
- BanTrackers.BansIffCounted: a failure exactly a window old counts or not depending on whether an earlier compaction has dropped it; the two one-way lemmas bound that case. The window is fixed over the run.
- SlidingWindow.EveryWindowIsBounded: one fixed limit and window per run; the code allows both to change between requests.
- Fencing.LiveNodesAgree: assumes that Secret reads and bumps succeed and that recovery is authorised only while the other nodes are stopped; the table says what one failed read or bump does.
- Discovery.ResolveStatic: Go's sort is modelled as an insertion sort against a relational specification.
- Replay.ReplayCursor.Round: fetching retries, forwarding, saving and the exec hook.
- Client address parsing, fingerprints, OIDC, header allowlists, SSE, TLS, files, the web UI and the command line: plumbing around the modelled core.
- `UserChannels`, `HasChannelRole`, `MigrateRBAC` and role creation.
