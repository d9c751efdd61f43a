# Companion relay: a verified model

The relay pairs a Mac and a phone: each room has one slot per role, admits sockets
by signature or by an attested ticket, and splices frames between the two slots.
In distributed mode a fleet of hosts shares the rooms by hashing names into
buckets, follows a published, versioned shard map, and drains buckets it no longer
owns. This project models that behaviour and proves what it is for.

`dafny verify dfyconfig.toml` checks everything.

## How the model is built

| files | what they model |
|---|---|
| `ShardMap`, `OwnedSet`, `ShardMapStore`, `Routing` | map validation, owned sets, the store and poller, the ownership gate, the monitor's probe rooms |
| `Runtime`, `DrainScheduler`, `DrainProofs`, `Host`, `HostDrain`, `Fleet` | the registry of live rooms, the drain, one host and the end of its drain, and the fleet as a timed step relation |
| `RoomSockets`, `RoomSocketProofs` | the socket set of a room and every way it moves |
| `Room`, `RoomObject` | the room: functions that say what each handler does, and the class whose methods are proved to do it |
| `RoomFrames`, `RoomCalls` | what becomes of each socket and row at each event, told by what can be seen when it comes |
| `RoomProofs`, `RoomCaps`, `RoomAuth`, `RoomLifetime`, `RoomQuota`, `Quota`, `Provenance` | what holds on every run of a room |
| `RoomWitness` | two runs from a new room that break what the comments promise |
| `Interleaving`, `InterleavingProofs`, `WaitingRoom` | the same admission with every `await` a point where anything else may happen, the pairing budget and the waiting room at that grain, and how the two grains fit together |
| `Registration`, `RegistrationProofs`, `RegistrationWitness` | register calls at the same grain: single use, the verifier that is put once, the counter that only rises |
| `Storage` | string-keyed rows, and why the key families are independent maps |
| `ByteArrays`, `Canonical`, `Cbor`, `CborProofs`, `CborCodec` | the signed encoding and the CBOR subset |
| `Limits`, `Series` | rate limiters and the dashboard's reset-aware arithmetic |
| `Wrappers`, `Sequences` | options, lists without repetition |

What changes fields in the source is a class or a method with loops here, proved
equal to a function; the theorems are about the functions and about runs of them.
Cryptography is a parameter (`Env`): any functions at all for base64, Ed25519
verification and the two App Attest checks. A random string is a field of the
event that draws it. Clocks are integers that events carry, drain tokens are exact
reals, and the real-valued arithmetic of `dashboard/series.js` is exact up to its
final rounding.

Two granularities are used for the room. In `Room` one handler runs to completion.
Its events include what the real transport can do: a close frame is acknowledged
(and the socket leaves the routable set) before its close event, a transport error
comes before the close event, and a socket the relay has closed can still deliver
frames. In `Interleaving` every `await` is a separate step, a storage call takes
effect when it is made, only the frames of one socket are serialised, and the eviction
that ends an upgrade comes after an await of its own. `Registration` does the same for
register calls. `InterleavingProofs.UninterruptedProof` and
`Registrations.UninterruptedRegister` say that a handler which nothing interrupts does
what the coarser model says.

The assumptions of the fleet theorem are guards of its steps and nothing else: a
fetch returns a version at most `ttl` behind (`MayServe`), and no host goes longer
than the poll interval without a good poll (`Advance`).

## Findings

- **Phone implies mac** (the `phone_only` gauge, host/runtime.js:271-274) is false of
  the code at event granularity. `RoomWitness.PhoneOnlyHappens` is a seven-event run
  from a new room, at any time, that breaks it: the mac's close frame is acknowledged,
  which takes it out of the routable set, before its close event closes the phone.
  `RoomProofs.PhoneImpliesMac` says exactly on which runs it holds, by what can be seen
  of an event when it comes (`RoomProofs.OrphaningEvent`). The other ways are a phone
  whose transport fails, a phone that is already gone when another one has joined, and,
  from a socket that was displaced or closed, a frame over the limits or a mac's proof.
  If events come only from routable sockets and a socket goes away in one step, it does
  hold (`RoomProofs.RoutableIsPaired`).
- **The pairing-cycle cap is not per mac park** (the comment at src/room.js:40-48 says
  it is). admit() resets the count before it refuses a mac that asked to yield, so the
  refused mac refills the budget of the one that stays parked.
  `RoomWitness.MoreThanTheCapPerPark` is a run from a new room, at any time, on which
  one mac stays parked throughout and nine phones are paired with it.
  `RoomCaps.CapIsPerParkExactly` gives the exact condition on runs: the count covers
  every phone since the park exactly when no yielding mac is refused after one was
  paired. `RoomCaps.BudgetRestartsExactly` says exactly which events start it again.
- **The charge of that budget is a lost update if handlers interleave at its awaits**:
  `InterleavingProofs.LostCharge` is a run from the start on which two phones take the
  slot on one charge. While the count does not start again, it is the number of charges
  passed exactly when no charge passes between another handler's read and its own
  charge (`InterleavingProofs.ChargesAreCounted`); that none does is a property of the
  event loop which host/storage.js:25-87 documents. The slot and ticket claims do not
  need it (`Interleaving.SlotsAndTickets`).
- **The cap of four un-admitted sockets** holds at every event when an upgrade is one
  event. Between the awaits it is exceeded by at most one for each upgrade that has
  not come to its eviction (`WaitingRooms.WaitingRoomIsBounded`), and that many are
  reached on a run from the start (`WaitingRooms.BoundIsReached`). It is kept exactly
  when no socket is accepted while four are waiting (`WaitingRooms.CapKeptExactly`).
- **Single use of tokens and challenges, and the verifier that is set once, need register
  calls that do not overlap** (src/room.js:648-724 deletes the token after the awaited
  assertion check and does not look at what the delete found).
  `RegistrationWitness.TwoCallsOneToken` is a run from the start on which two calls with
  one token both succeed and the second verifier replaces the first.
  `RegistrationProofs.SecretsAreUsedOnce`, `VerifierIsPutOnce` and `CountersOnlyRise`
  give the exact conditions, and `OneActorUsesOnce` is the argument of
  host/storage.js:64-69: a secret that one call at a time presents is used once.
- **A negative byte quota** (the setting is parsed as any integer) lets nothing
  through, so the bound on spliced bytes has the limit cut off at zero.
- **A reload forgets what was not flushed.** For every limit and any number of reloads,
  `Quotas.SlackIsReached` is a run that forwards the limit and, for each reload, a flush
  interval less one byte (or the limit, if smaller) once more; `Quotas.PeriodBound` is
  that tight.

## Model

| member | source | states |
|---|---|---|
| ShardMaps.Validate | src/sharding/shardMap.js:78-100 | accepts exactly the maps with a non-negative version whose ranges are well formed, have bare-authority hosts, and put every bucket in exactly one range; otherwise which error |
| ShardMaps.BareAuthorityExactly | src/sharding/shardMap.js:20-33 | a host is accepted exactly when, behind "https://", it is all of the authority, in lower case, with no trailing dot and no white space |
| ShardMaps.SortAndWalk | src/sharding/shardMap.js:90-99 | the sorted walk finds no gap exactly when every bucket is covered by one range |
| ShardMaps.HostIgnoresRangeOrder | src/sharding/shardMap.js:103-109 | two accepted maps with the same ranges in any order answer every bucket alike |
| ShardMaps.EveryBucketHasAHost | src/sharding/shardMap.js:103-109 | an accepted map names a host for every bucket of the ring |
| OwnedSets.OwnedBuckets | src/sharding/ownedSet.js:9-16 | the loop over ranges computes exactly the buckets some range gives the host |
| OwnedSets.DiffOwned | src/sharding/ownedSet.js:19-25 | acquired and relinquished are the two set differences |
| OwnedSets.OwnedIsLookup | src/sharding/ownedSet.js:9-16 | on an accepted map a host owns a bucket exactly when lookup names it |
| OwnedSets.OwnedSetsPartitionTheRing | src/sharding/ownedSet.js:9-16 | owned sets of distinct hosts are disjoint and together cover the ring |
| ShardMapStores.ShardMapStore.ApplyFetched | src/sharding/shardMapStore.js:39-49 | adopts only a newer version, replaces map and owned set together, returns the difference |
| ShardMapStores.ShardMapPoller.FetchOnce | src/sharding/shardMapPoller.js:26-59 | failed, malformed and invalid fetches change nothing; a valid one reaches the store |
| ShardMapStores.HoldsHighest | src/sharding/shardMapStore.js:39-53 | after any interleaving of good, stale, invalid and failed fetches the store holds the highest valid version seen, and owns what it gives |
| ShardMapStores.CompletionOrderIrrelevant | src/sharding/shardMapPoller.js:26-59 | if a version names one map, every completion order of the same fetches ends in the same state |
| ShardMapStores.ReplayRebuildsOwned | src/sharding/shardMapStore.js:43-47 | replaying the emitted differences from nothing gives the owned set |
| ShardMapStores.SameVersionNeverBothOwn | src/sharding/admission.js:20-29 | two hosts that both own a bucket are at different versions |
| ShardMapStores.ExactlyOneAdmits | src/sharding/admission.js:20-29 | when all hosts a map names hold it, exactly one of them owns each bucket |
| Routing.BucketForRoomName | src/sharding/bucket.js:15-18 | null exactly for a name that is not 64 lower-case hex digits; otherwise the value of its last four digits, a bucket of the ring |
| Routing.RoomNameRoundTrip | src/sharding/bucket.js:15-18 | sixty hex digits followed by a padded bucket parse back to that bucket |
| Routing.OwnershipDecision | src/sharding/admission.js:20-29 | direct mode admits all; otherwise 421 for unroutable names and buckets not owned, told apart |
| Routing.WalkIsBijection | monitor/src/monitor.js:137-146 | the index walk is a bijection from [0, total) onto the owned buckets, and total is 0 exactly for a host with none |
| Routing.OwnedRoomForHost | monitor/src/monitor.js:135-148 | for any map: null exactly when the host owns nothing, otherwise the prefix and the walked bucket, an owned one; on an accepted map the name parses back to that bucket and that host's own gate admits it |
| Routing.EveryOwnedBucketIsProbed | monitor/src/monitor.js:135-148 | every owned bucket is the answer for some random unit |
| Runtimes.Runtime.RoomsInBucket | host/runtime.js:342-350 | exactly the resident rooms with a socket whose name hashes into the bucket, in insertion order |
| Runtimes.Runtime.CloseRoom | host/runtime.js:356-364 | closes every socket of that room and of no other |
| Drain.DrainScheduler.Run | src/sharding/drainScheduler.js:53-80 | the nested loops, evicting through the live registry, do what the scan over the rooms live at the start says: episodes kept, tokens, rooms evicted and their order |
| Drain.DrainScheduler.Relinquish | src/sharding/drainScheduler.js:43-47 | a fresh episode with a new deadline; a bucket already draining keeps its place |
| Drain.DrainScheduler.Reacquire | src/sharding/drainScheduler.js:49-51 | drops the episode and its evicted set |
| DrainProofs.PassEvictsDue | src/sharding/drainScheduler.js:53-80 | a pass evicts the first min(floor(tokens), rooms due) of the rooms due |
| DrainProofs.RanDoes | src/sharding/drainScheduler.js:53-80 | only live rooms of past-deadline buckets, each once per episode, and never one the episode evicted before |
| DrainProofs.TokensStayInRange | src/sharding/drainScheduler.js:29-56 | on every run the tokens stay in [0, max(1, rate)] |
| DrainProofs.RateBound | src/sharding/drainScheduler.js:53-80 | in every window of a run, evictions are at most max(1, rate) plus rate times its length |
| DrainProofs.DrainFinishes | src/sharding/drainScheduler.js:53-80 | the drain keeps up with its rate: for every k >= 1 that is 1 or at most the rate, and ticks at least k * 1000/rate ms apart, R rooms due take at most R/k ticks, rounded up (at least one), until no episode is left, if no room of a draining bucket becomes live meanwhile; other rooms may come and go |
| HostDrain.DrainCompletes | host/server.js:420-478 | after any run of a host from boot: once all drains are due and nothing more is relinquished, R/k such ticks for R rooms due, among any upgrades, closes and polls, leave nothing draining and every live room in a bucket the host owns |
| Hosts.ValidateParams | src/sharding/params.js:28-35 | no error exactly when ttl < poll, the delay is at least two polls, and the rate is positive; otherwise the first of these that is broken |
| Hosts.Host.ApplyShardDiff | host/server.js:420-424 | relinquished buckets start to drain, then acquired ones stop |
| Hosts.Host.UpgradeSocket | host/server.js:473-478 | a socket enters a room exactly when the gate admits it |
| Hosts.NoStrandedRoom | host/server.js:420-478 | on every run of a host a live room's bucket is owned or draining, never both, and no room evicted in a current episode is live |
| Hosts.EvictionsAreJustified | src/sharding/drainScheduler.js:53-80 | every eviction of a run is of a live room whose bucket is not owned, at least the delay after it was relinquished, once |
| Hosts.GateIsOwnershipDecision | host/server.js:473-478 | the gate used in the host theorems is the admission decision |
| Fleets.MoveKeepsInv | host/server.js:420-478 | publish, boot, good and bad polls, sockets, ticks and time all keep the fleet invariant |
| Fleets.EvictionMeansEveryoneAdopted | src/sharding/params.js:20-35 | whenever a host evicts a room, every host has already adopted the version that began the drain or a newer one |
| Fleets.EvictedClientIsAdmitted | src/sharding/params.js:20-35 | if that version is still the newest, the host it names is another one and, if it is in the fleet, admits the client |
| Fleets.BothAdmitOnlyAcrossVersions | src/sharding/admission.js:20-29 | two hosts that both admit a room hold different versions |
| Fleets.FleetConverges | src/sharding/shardMapPoller.js:26-59 | ttl + poll after the last publication every host holds it and admits exactly what it names it for |
| RoomSockets.MoveKeepsInv | src/room.js:525-536 | every move of the socket set keeps at most one routable holder per role |
| RoomSocketProofs.PairedExactly | host/runtime.js:271-292 | from a state where a routable phone has a routable mac, a move keeps that exactly when it is not one of the listed ones |
| RoomSocketProofs.CloseEventHeals | src/room.js:981-999 | after an admitted side's close event nobody holds the opposite slot, and a mac's close event restores phone-implies-mac |
| RoomSocketProofs.EvictionCapsPreAuth | src/room.js:771-780 | an eviction leaves exactly min(before, 4) un-admitted sockets |
| RoomSocketProofs.LastAcceptedStays | src/room.js:771-780 | an eviction never takes the socket that was accepted last, if the clock has not gone back |
| RoomSocketProofs.JoinCapsPreAuth | src/room.js:279-303 | a connection with its eviction leaves exactly min(before + 1, 4) un-admitted sockets |
| RoomSocketProofs.AtMostSix | src/room.js:771-780 | with the cap kept and one holder per slot, at most six sockets are routable |
| RoomProofs.RoomIsBounded | src/room.js:279-303 | on every run: one holder per slot, at most four un-admitted sockets, at most six routable ones |
| RoomProofs.PhoneImpliesMac | src/room.js:460-562 | on every run: a routable phone always has a routable mac exactly when none of the events, judged by its kind, sender, size and proof, is an orphaning one |
| RoomProofs.OrphansExactly | src/room.js:321-362 | those guards of an event hold exactly when its effect on the sockets is one that orphans a phone |
| RoomProofs.RoutableIsPaired | host/runtime.js:88-152 | a routable phone always has a routable mac on every run whose events come from routable sockets and on which a socket goes away in one step; a mac's transport error does no harm |
| RoomWitness.PhoneOnlyHappens | host/runtime.js:118-137 | for every clock value and any two sockets: a run from a new room after which a phone is routable and no mac is |
| RoomCaps.AtMostEightCycles | src/room.js:463-499 | between parks, refusals of yielding macs and wipes, an un-established room admits at most eight phones in all |
| RoomCaps.BudgetRestartsExactly | src/room.js:463-468 | a positive count starts again exactly when a mac's proof gets through to admit() in pairing mode, or at a wipe |
| RoomCaps.MacParksOrYields | src/room.js:463-515 | a mac whose proof gets through in pairing mode parks, or asked to yield and is refused |
| RoomCaps.CapIsPerParkExactly | src/room.js:40-48 | on any run with one mac parked and nothing wiped, the count covers every phone since the park in every state exactly when no yielding mac is refused after a phone was paired |
| RoomCaps.OverCapKills | src/room.js:491-498 | one cycle too many leaves no socket and no stored row |
| RoomWitness.MoreThanTheCapPerPark | src/room.js:463-515 | for every clock value: a run from a new room on which a mac parks once and stays, nothing is wiped, and one phone more than the cap is paired |
| RoomCaps.NewestSurvives | src/room.js:771-780 | on every run whose clock does not go back, the connection that just came in is not the one evicted |
| RoomCaps.AlarmEnforcesDeadline | src/room.js:814-826 | after the alarm no un-admitted socket is past its deadline, and a parked mac is untouched unless the room is reaped |
| RoomFrames.HelloExactly | src/room.js:364-395 | a first frame of at most 8 KiB with version 1 and a role is answered with a challenge in that role; any other closes its socket; neither touches a row or a limit |
| RoomFrames.RefusedProofGoes | src/room.js:878-892 | a proof that is not admitted closes its socket and no other, unless it is one pairing cycle too many |
| RoomFrames.TicketGoes | src/room.js:440-453 | a ticket that lets a proof through is used up by it, whatever becomes of the proof after that |
| RoomFrames.SplicedFrame | src/room.js:321-356 | a spliced frame over 256 KiB or beyond 500 a second closes both sides; any other changes no socket or closes all |
| RoomFrames.CloseFrameTakesOne | host/runtime.js:118-137 | an acknowledged close frame takes its socket alone |
| RoomFrames.CloseEventTakesPeer | src/room.js:964-999 | the close event takes exactly its socket and the holders of the other slot; after a close by the relay it does nothing |
| RoomFrames.ErrorTakesPeer | src/room.js:971-999 | a transport error takes exactly the holders of the other slot |
| RoomFrames.OldestAreEvicted | src/room.js:771-780 | a connection adds its socket, and whoever it evicts waited at least as long as everyone who goes on waiting |
| RoomFrames.AlarmExactly | src/room.js:814-876 | an alarm that does not reap closes exactly the sockets un-admitted for more than 15 s and drops exactly the expired tickets, tokens and challenges |
| RoomLifetimes.RoomInUseIsKept | src/room.js:424-426 | after a signed join or a registration, on every run whose clock does not go back, the room is established in every state less than the idle time later, unless it is deleted by signature |
| RoomLifetimes.IdleRoomIsReaped | src/room.js:829-846 | after the last of these, the first alarm at the idle deadline or later leaves no socket and no row, and none before it un-establishes the room |
| RoomLifetimes.AlarmStartsIdleTime | src/room.js:832-839 | a room without a timestamp is kept by the alarm, which starts its idle time |
| RoomAuth.OnlyAuthorizedAdmission | src/room.js:397-536 | a socket is never admitted but by its own proof, with a valid signature over this very join or a live ticket, within the attempt limit; a phone only with a mac parked and budget left; a yielding join never displaces; and exactly the previous holder of that slot goes, never its peer |
| RoomAuth.AdmittedExactly | src/room.js:397-536 | a proof is admitted exactly when it has the credentials, is within the limits, has a mac and budget if it is a phone's, and does not have to yield |
| RoomAuth.OnlyAuthorizedWipe | src/room.js:730-756 | an established room ends only by a valid signature over its deletion with a live challenge, or by the idle reap after its full idle time, and then no socket and no row is left |
| RoomAuth.TriesAreBounded | src/room.js:252-260 | on every run without a restart, any ten seconds see at most 80 proofs checked and any second at most 1000 frames pass the limiter |
| RoomAuth.CalmTriesPass | src/room.js:252-260 | on every run of a room that was just loaded, if no ten seconds see more than 40 proofs, or no second more than 500 frames, none is refused for its rate |
| Quotas.QuotaBound | src/room.js:222-248 | bytes let through are at most the limit, once more per restart of the count, plus one flush interval per reload |
| Quotas.PeriodBound | src/room.js:222-248 | between restarts: the limit plus one flush interval per reload |
| Quotas.RollsADayApart | src/room.js:230-234 | between two frames on which the count starts a new day there are at least 24 hours, whatever reloads and wipes come between |
| Quotas.NewDayStartsAgain | src/room.js:230-234 | a frame 24 hours after the day began starts the count again with itself |
| Quotas.DailyBound | src/room.js:222-248 | in any clocked stretch with frames in [from, to]: the limit times 2 plus the days in it plus the wipes, and 4 MiB per reload |
| Quotas.StepKeepsSound | src/room.js:243-246 | the count in memory is never a flush interval ahead of the last flush while under the limit |
| Quotas.ReloadForgets | src/room.js:225-246 | any rounds of frames of a day, each within the limit and below a flush interval and each followed by a reload, and then frames up to the limit, are forwarded in full |
| Quotas.SlackIsReached | src/room.js:225-246 | for every limit and number of reloads, a run without a restart of the count forwards the limit plus, per reload, a flush interval less one byte (or the limit, if smaller) |
| RoomQuota.SplicedBytesAreBounded | src/room.js:343-358 | the same bound for the bytes any run of a room hands to forward() |
| RoomQuota.PeriodIsBounded | src/room.js:343-358 | between window rolls and wipes a room splices at most the limit, plus one flush interval per restart |
| RoomQuota.SplicedPerDay | src/room.js:343-358 | in any stretch of a run with messages in [from, to], from any state, a room splices at most the limit times 2 plus the days in it plus the wipes, and 4 MiB per restart |
| RoomQuota.OverQuotaClosesAll | src/room.js:235-242 | a metered frame is handed on, or every socket of the room is closed |
| RoomCalls.ChallengeIsHonoured | src/room.js:567-584 | a challenge is handed out exactly while fewer than 16 are unexpired, and is good for five minutes |
| RoomCalls.TicketIsHonoured | src/room.js:590-646 | an attestation succeeds exactly when it holds up over an unexpired challenge, and its ticket lets a proof through, with that key, for five minutes |
| RoomCalls.RegisterExactly | src/room.js:648-724 | exactly when a registration succeeds, and the rows it leaves |
| RoomCalls.TokenIsHonoured | src/room.js:540-558 | the token of a phone just admitted registers a verifier for five minutes |
| RoomCalls.DeleteExactly | src/room.js:730-756 | a deletion succeeds exactly with a signature over it and an unexpired challenge, and then leaves no row |
| Provenance.EveryRunIsAccounted | src/room.js:567-724 | on every run from a new room under attestation, the log of the current life justifies itself entry by entry and accounts for every challenge, ticket, token, counter and verifier row |
| Provenance.VerifierProvenance | src/room.js:648-724 | behind a non-empty verifier: a verified attestation of K over a challenge issued here, one redemption of its ticket, a token carrying K, a verified assertion under K over another issued challenge, in that order, and K is the pinned registrant |
| Provenance.ConsumedOnce | src/room.js:440-453 | a challenge is consumed once, a ticket redeemed once, a token used once, and assertion counters grow per key |
| Provenance.VerifierIsFinal | src/room.js:659-664 | with or without attestation, nothing but a wipe replaces a verifier |
| RoomObjects.RoomObject.WebSocketMessage | src/room.js:321-362 | one frame does exactly what the room's step says, and what is forwarded goes to the holder of the other slot |
| RoomObjects.RoomObject.HandleProof | src/room.js:397-458 | rate limit, signature, ticket compare-and-swap and open mode, in that order |
| RoomObjects.RoomObject.Admit | src/room.js:460-500 | budget reset and charge, mac-offline refusal, cap teardown |
| RoomObjects.RoomObject.TakeOrYield | src/room.js:505-559 | yields to a held slot if asked to, else displaces every holder, takes the slot and mints the token |
| RoomObjects.RoomObject.HandleUpgrade | src/room.js:279-303 | accepts, then closes the oldest un-admitted sockets over the cap |
| RoomObjects.RoomObject.OverQuota | src/room.js:222-248 | lazy load, roll, flush and the teardown of every socket, equal to the metering function |
| RoomObjects.RoomObject.Forward | src/room.js:894-904 | the frame goes to a routable holder of the other role, or nowhere if there is none |
| RoomObjects.RoomObject.WebSocketClose | src/room.js:964-999 | a remote close takes the other side with it; a close the relay made is silent |
| RoomObjects.RoomObject.WebSocketError | src/room.js:971-976 | a transport error takes the other side with it |
| RoomObjects.RoomObject.HandleAttestChallenge | src/room.js:567-584 | expired challenges are dropped, and none is issued at sixteen outstanding |
| RoomObjects.RoomObject.HandleAttest | src/room.js:590-646 | a live challenge is consumed whether or not the attestation holds; a ticket carries the attested key |
| RoomObjects.RoomObject.HandleRegister | src/room.js:648-724 | refusals in order, and on success counter, registrant, token and verifier rows together |
| RoomObjects.RoomObject.HandleDelete | src/room.js:730-767 | only a signature over the delete transcript of a live challenge wipes the room |
| RoomObjects.RoomObject.OnAlarmFired | src/room.js:814-876 | deadline sweep, pruning of the three ephemeral families, idle reap |
| Interleaving.DoFits | src/room.js:397-562 | whatever runs next at whatever await, the invariant holds again and each socket's state moves one step forward or not at all |
| Interleaving.SlotsAndTickets | src/room.js:525-536 | at every await of every interleaving: one routable holder per slot, and no ticket lets two proofs in |
| Interleaving.StatesOnlyAdvance | host/runtime.js:169-190 | over any stretch of any interleaving a socket only goes hello, challenged, admitted, and keeps its role |
| WaitingRooms.WaitingRoomIsBounded | src/room.js:289-300 | at every await of every interleaving: at most four un-admitted sockets are routable, and one more for each upgrade still to evict |
| WaitingRooms.BoundIsReached | src/room.js:289-300 | for every k a run from the start after which k upgrades are still to evict and four and k un-admitted sockets are routable |
| WaitingRooms.CapKeptExactly | src/room.js:289-300 | at most four un-admitted sockets are routable in every state of an interleaving exactly when no socket is accepted while four are |
| Interleaving.SecondRedeemerLoses | src/room.js:445-453 | of two handlers that read one live ticket, the one that deletes second is turned away and its socket closed |
| InterleavingProofs.LostCharge | src/room.js:485-498 | a run from the start on which two charges pass and two phones take the slot, and the count is one |
| InterleavingProofs.ChargesAreCounted | src/room.js:485-498 | in every interleaving in which the count does not start again: it is the number of charges passed, in every state, exactly when no charge passes between another handler's read and its own charge, and then at most eight pass |
| InterleavingProofs.UninterruptedProof | src/room.js:397-562 | a proof whose handler is not interrupted does to sockets, verifier, budget and tickets what the one-handler-at-a-time model says |
| Registrations.UninterruptedRegister | src/room.js:648-724 | a register call that is not interrupted leaves the rows and the answer that the one-handler-at-a-time model says |
| RegistrationProofs.SecretsAreUsedOnce | src/room.js:664-718 | in every interleaving of register calls: no token and no challenge is used twice, exactly when no call uses one that another call has used since this one read its row |
| RegistrationProofs.OneActorUsesOnce | host/storage.js:64-69 | a secret whose row at most one call at a time has read and is yet to delete is used once |
| RegistrationProofs.VerifierIsPutOnce | src/room.js:656-661 | a verifier is never put over another, exactly when no call puts one after another call has, since this one found none |
| RegistrationProofs.CountersOnlyRise | src/room.js:707-713 | a counter that is put is always above the one that is there, exactly when no call puts one that another call has reached since this one read the last |
| RegistrationWitness.TwoCallsOneToken | src/room.js:648-724 | a run from the start on which two calls with one token and a challenge each are both answered 200 and the second verifier replaces the first |
| Storage.FamiliesAreIndependent | host/storage.js:153-184 | a put or delete under one key prefix is one in that family and in no other |
| Storage.PutSingle | host/storage.js:167-169 | the single keys belong to no family |
| Storage.FamilyRows | host/storage.js:153-184 | read as the store of module Rooms, a put or delete under a prefix changes that one field |
| Storage.SingleRows | host/storage.js:167-169 | and a put under a single key changes that one field |
| Storage.NoRowsShowEmpty | host/storage.js:175-177 | no rows is the store of a new room |
| Storage.RoomStorage.Delete | host/storage.js:171-173 | reports whether there was a row, so of two deletes one is told yes |
| Storage.RoomStorage.List | host/storage.js:179-184 | exactly the rows under the prefix |
| Canonical.CanonicalEncode | src/room.js:128-143 | the buffer filled by index is the length-prefixed concatenation of domain and fields, and a reader of big-endian lengths gets exactly them back |
| Canonical.ParsedEncoded | src/room.js:123-143 | that reader gives back any list of elements shorter than 2^32 from its encoding |
| Canonical.EncodedParsed | src/room.js:123-143 | and what it reads is a list with that encoding |
| Canonical.JoinTranscriptReads | src/room.js:145-156 | a join signs, in this order, its domain, version 1, role byte 1 for a mac or 2 for a phone, nonce, room and origin |
| Canonical.DeleteTranscriptReads | src/room.js:174-185 | a deletion signs its domain, version 1, challenge, room and origin |
| Canonical.EncodingInjective | src/room.js:123-127 | encodings are equal only for equal lists, whatever their number of fields |
| Canonical.JoinTranscriptDetermines | src/room.js:147-156 | a join transcript determines role, nonce, room and origin |
| Canonical.DeleteTranscriptDetermines | src/room.js:177-185 | a delete transcript determines challenge, room and origin |
| Canonical.JoinIsNeverDelete | src/room.js:173-176 | no join transcript is a delete transcript |
| CborProofs.DecodeEncode | src/cbor.js:9-144 | decoding an encoding gives the value back, for every nesting with integers and lengths below 2^32 and distinct keys |
| CborProofs.PrefixFree | src/cbor.js:93-144 | no encoding is a proper prefix of another |
| CborProofs.NodesPaidFor | src/cbor.js:19-55 | a decoded value has no more nodes than bytes were consumed, whatever counts the heads announce |
| CborProofs.EightByteLength | src/cbor.js:62-83 | the eight bytes of the longest head are one big-endian number, refused from 2^53 on |
| CborProofs.DecodedIsSafe | src/cbor.js:57-71 | no integer above 2^53 - 1 comes out at any depth, keys are distinct at every depth, nothing is longer than the input |
| CborProofs.ReEncodeItem | src/cbor.js:133-144 | re-encoding is never longer than the bytes consumed, for any input |
| CborProofs.ReEncode | src/cbor.js:9-144 | and it decodes to the same value when integers are below 2^32 |
| CborProofs.CanonicalBytes | src/cbor.js:9-144 | bytes re-encode to themselves exactly when they are the encoding of some value |
| CborCodec.Reader.ReadItem | src/cbor.js:19-55 | the reader, on any bytes, ends, never passes the end, and returns what the decoding function says, error included |
| CborCodec.Reader.ReadLength | src/cbor.js:57-71 | every head form, with its errors in the order they arise |
| CborCodec.DecodeBytes | src/cbor.js:9-17 | the whole decoder equals the decoding function, trailing bytes refused |
| CborCodec.Writer.WriteItem | src/cbor.js:107-131 | the parts pushed for a value are, end to end, its encoding |
| CborCodec.EncodeValue | src/cbor.js:93-105 | the buffer filled from the parts is the encoding |
| Limits.FixedWindow.RateLimited | src/room.js:252-260 | the window after one more hit, and over the limit exactly when its count is |
| Limits.TwiceTheLimit | src/room.js:252-260 | any closed interval no longer than the window lets through at most twice the limit |
| Limits.CalmHitsPass | src/room.js:252-260 | if at most the limit of hits ever lies within a window's length, every hit is let through |
| Limits.Limiter.Over | host/server.js:117-144 | the bucket map never exceeds its bound after a call; what is swept and evicted |
| Limits.BoundedRefinesUnbounded | host/server.js:117-144 | while at most maxKeys keys are unexpired at each call, every decision equals that of a limiter that forgets nothing |
| Limits.TwiceTheLimitPerKey | host/server.js:117-144 | whatever other keys do, any closed interval no longer than the window lets through at most twice the limit of one key's calls |
| Limits.CalmKeyPasses | host/server.js:117-144 | whatever other keys do, a key that never makes more than the limit within a window's length is never refused |
| Limits.TwiceTheLimitBounded | host/server.js:117-144 | the same for the limiter with a bounded map, while the keys in their window fit |
| Series.WindowTotal | dashboard/series.js:27-31 | the loop computes the sum of reset-aware steps |
| Series.TotalIsResetAware | dashboard/series.js:20-31 | for any history of increments and restarts sampled at any moments, the total never exceeds the true increments, and equals them if there was no restart |
| Series.Bucketize | dashboard/series.js:37-66 | slot by slot, the average gauge and the rate per minute over the samples of that slot, and a gap where there is nothing |
| Series.SlotExactly | dashboard/series.js:38-40 | in integers: a timestamp is in the slot whose share of the window it lies in, the first and last slot also taking what lies outside |
| Series.SlotNeverFalls | dashboard/series.js:38-40 | a later timestamp is never in an earlier slot |
| Series.SlotShowsItsStretch | dashboard/series.js:42-66 | a slot shows the stretch of samples that lie in it: their number, the sum of their gauges, and the counter's growth and time since the sample before |
| Series.SlotsConserve | dashboard/series.js:37-66 | slot sums add up to the window total and slot sample counts to the number of rows |
| Series.LatencyQuantile | dashboard/series.js:198-212 | null exactly when nothing was observed, else the interpolated bound |
| Series.QuantileWithinBucket | dashboard/series.js:198-212 | the estimate lies within the bounds of the bucket that is hit, even for non-monotone counts |
| Series.QuantileInterpolates | dashboard/series.js:198-212 | in the first bucket that reaches the rank, the estimate is, up to rounding, on the line from its lower to its upper bound |
| Series.QuantileMonotone | dashboard/series.js:198-212 | the estimate grows with the quantile |

## Left out

- The promise that housekeeping wakes within 15 s (src/room.js:782-793): the persisted alarm row survives a lapsed alarm, so it does not hold of the code; the alarm row and rescheduling are not part of this model.
- X.509 chains, App Attest formats, Ed25519, SHA-256, base64: foreign calls, taken as arbitrary functions.
- SQLite, `ws`, http, TLS, proxy headers, logging, metrics rendering: input and output.
- JSON, UTF-8 and base64 parsing: events carry parsed records, CBOR text is its bytes; an object key `__proto__` and the reordering of integer-like keys by JavaScript objects are not modelled.
- The iteration order of a JavaScript `Set` of buckets: any order is allowed, which includes insertion order.
- Storage.RoomStorage.List: the order by key, on which no caller in src/room.js depends. `RoomObjects.RoomObject` keeps the rows as the typed record that `Storage.StoreOf` reads off them.
- The unit of a frame's size (UTF-16 units for text, bytes for binary): the size is given with the frame.
- RoomObjects.RoomObject.HandleUpgrade: accepting a socket and evicting over the cap are one step here, as they are for `RoomProofs.RoomIsBounded` and `RoomCaps.NewestSurvives`; the awaited digest between them (src/room.js:289-300) is a step of its own in `Interleaving`. The log tag it computes is not modelled.
- RoomObjects.RoomObject.OnAlarmFired: the rescheduling of the alarm (src/room.js:847-856).
- Handlers that throw, and messages of an old room context after an idle eviction of the room from memory.
- The `/attest` and `/delete` handlers at `await` granularity: in `Interleaving` and `Registration` the rows are wiped and tickets, tokens and challenges come and go at any time instead, and in `Interleaving` the verifier changes at any time.
- Runtimes.Runtime.SocketClosed: alarms and pins that keep an idle room resident are not modelled; a room without sockets leaves the registry.
- The gate and the registration of an upgraded socket are one step in `Hosts`, as no map is adopted in between.
- Series.Bucketize: one gauge and one counter column stand for the others, which the same code accumulates, before rounding.
- Float rounding of `toFixed`, and the chart payloads.
- The dashboard page, the collector, the monitor's HTTP server, alerts and email, the client code, and CDN behaviour beyond "any version at most ttl behind": single-branch logic or out of scope.
