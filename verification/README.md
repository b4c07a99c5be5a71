# K-Patrol backend: a Dafny model of its stateful cores

The K-Patrol backend is a NestJS service between patrol robots (MQTT, Socket.IO), their operators
and a PostgreSQL database. This project models the parts of it that keep state across events and
proves what they promise over whole runs.

| file | what it models |
|---|---|
| `TokenBucket.dfy` | the lazily refilled token bucket: arithmetic, sliding-window envelope, limiter object |
| `ControlGate.dfy` | the Socket.IO gateway: split handshakes, rate-limited commands, emergency stop |
| `MqttIngest.dfy` | the throttled ingest: one step per message or scan, and the service object with its loops |
| `Liveness.dfy` | runs of the ingest steps compared with an ingest that persists everything |
| `OwnershipCache.dfy` | the ownership cache, operations one at a time |
| `OwnershipRace.dfy` | the same cache with every operation split at its awaits |
| `RefreshRotation.dfy` | refresh-token rotation over a shared session table, any number of calls interleaved |
| `AlarmRules.dfy` | alarm rules and their retained copies at the broker |
| `Alerts.dfy` | the alert upsert under redelivery |
| `Topics.dfy` | topic parsing and construction |
| `Common.dfy` | `Option`, map lookup, selection by mask |

## How it is put together

Each core is given as a step function on its state (`Step`, `Next`, `Acquire`, `Upsert`). Where the
code updates fields in place, a class has those fields and methods with the code's order of
assignments and loops, and each method's contract says that its new state is the step of its old
state. The results are lemmas about runs of the step functions: invariants of every run,
equivalence with a reference that has no throttle, cache or bucket arithmetic, or exact conditions.
What an event should do is said a second time without the step functions: by a socket's own history
(`PhaseOf`, `Heard`, `Registered`), by what a row or an answer means (`Says`, `Describes`, `Shows`,
`Takes`), and with the code's numbers and names written out.

Times in the limiter and the gateway are real milliseconds, elsewhere integer milliseconds; token
counts and battery readings are reals. The clock, the outcome of a database write, the answer of an
ownership check, fresh ids and random tokens are inputs of the step that uses them. The database is
part of the state of each core. `hide` in a proof keeps a definition that is not needed out of it.

## Where the code differs from its comments, and what that means for the results

- The comment on `handleHeartbeatMessage` and the cache's field comment call the cached status the
  last persisted one. A heartbeat updates the cache even when its write fails.
  `Liveness.HeartbeatKeepsCoherenceIff` gives the exact condition and `Liveness.FailedHeartbeatDiverges`
  an input. The comment on `handleStatusMessage` says that the dashboard recovers through status
  frames; it does exactly when the cache does not already say ONLINE
  (`Liveness.StatusFrameRecoversIff`). Cache and row then disagree until the first step of the kinds
  that `Liveness.StepRepairsIff` lists, and no longer (`Liveness.DivergenceLastsIff`). A Pi heartbeat
  that is written through always ends it (`Liveness.WrittenHeartbeatRecovers`), but status frames
  can keep the throttle from letting one through (`Liveness.FrameStarvesHeartbeat`).
- The ownership cache is described as an LRU; it evicts the first entry of the map. A use does not
  protect an entry (`OwnershipRace.UsedEntryIsEvicted`), and a refill of a cached key keeps the old
  place, and at 256 entries evicts another one although no room is needed
  (`OwnershipCache.RefillEvictsAnother`, `OwnershipCache.RefilledEntryGoesEarly`). An entry stays
  exactly until the fills that found the cache full outnumber the entries before it
  (`OwnershipCache.EntryRemainsIff`); the cache is the last 256 insertions when all keys are new
  (`OwnershipCache.EvictionIsFifo`).
  Invalidation runs before the row is written, so a rename or a removal that overlaps a lookup leaves
  the old serial cached (`OwnershipRace.OverlapGivesStaleHit`), even of a robot that is gone. The
  steps that part cache and database are exactly those of `OwnershipRace.NextKeepsAgreementIff`, and
  a run agrees throughout iff it has none of them (`OwnershipRace.AgreementHoldsIff`). What always
  holds is `OwnershipRace.BoundedStaleness`.
- The controller calls rotation atomic. It is two round trips, but no token is exchanged twice.
  A logout that falls between them finds no row and does not end the login
  (`RefreshRotation.LogoutMissesRotation`); a logout ends its login for good iff it finds the row
  or nothing was left of the login before (`RefreshRotation.LogoutIsFinalIff`).
- `handleDisconnect` says that limiter state is always released; for a robot socket it is not when
  the status update throws. `ControlGate.LimiterKeysAreLiveClients` holds all the same, because
  robot sockets never get a bucket. The same handler deletes a robot's registration even when a
  newer socket of that robot is live: `ControlGate.NextKeepsReachableIff` and
  `ControlGate.ReconnectLosesRobot`. A client that leaves while its ownership check is awaited is
  put into the room all the same: `ControlGate.NextKeepsRoomsIff` and
  `ControlGate.LateJoinLeavesDeadClient`.
- Registering or renaming a robot publishes no rules. `AlarmRules.ReusedSerialIsStale` and
  `AlarmRules.RenamedRobotLosesRules` are runs after which the retained rules are wrong;
  `AlarmRules.NextReplicatesIff` says which steps keep them right, `AlarmRules.ReplicatedThroughoutIff`
  which runs do, and `AlarmRules.ReplicationResumes` that any connect puts them right again.
- The alert upsert looks for id 0 when a message has no numeric id, and stores no id:
  `Alerts.IdlessRedeliveryIgnoredIff`. Such an alert is stored once per delivery
  (`Alerts.IdlessAlertStoredTwice`), or not at all once an alert with id 0 exists
  (`Alerts.IdlessAlertLost`); `Alerts.StoredIff` says exactly when a delivery gets a row.

## Model

| member | source | states |
|---|---|---|
| `TokenBucket.TokenBucketRateLimiter.TryAcquire` | src/modules/socket/rate-limiter.ts:45-65 | the verdict is the one the key's own requests since its last release call for, and only that key's bucket changes |
| `TokenBucket.TokenBucketRateLimiter.TakeToken` | src/modules/socket/rate-limiter.ts:46-64 | create or refill the bucket, then spend one token if there is one |
| `TokenBucket.TokenBucketRateLimiter.Release` | src/modules/socket/rate-limiter.ts:68-70 | the key's bucket is gone and no other changes |
| `TokenBucket.TokenBucketRateLimiter.Peek` | src/modules/socket/rate-limiter.ts:73-75 | the tokens that the key's own history leaves, or nothing for an unknown key |
| `TokenBucket.TokenBucketRateLimiter.constructor` | src/modules/socket/rate-limiter.ts:36-39 | starts without buckets; capacity 30 and 15 per second unless given |
| `TokenBucket.GrantIffWithinEnvelope` | src/modules/socket/rate-limiter.ts:45-65 | on a nondecreasing clock a request is granted iff every window from an earlier grant to now still fits capacity plus refill |
| `TokenBucket.BucketIsTightestWindow` | src/modules/socket/rate-limiter.ts:51-64 | the stored tokens equal the room left in the tightest window of the grants, capped at the capacity |
| `TokenBucket.LevelIsGreatestLowerBound` | src/modules/socket/rate-limiter.ts:53-56 | that room is the minimum of the capacity and all window slacks |
| `TokenBucket.GreedyIsOptimal` | src/modules/socket/rate-limiter.ts:4-14 | at every prefix of every request stream no admission choice within the envelope has granted more |
| `TokenBucket.StayAhead` | src/modules/socket/rate-limiter.ts:45-65 | grants plus remaining room are never behind those of any other envelope-respecting choice |
| `TokenBucket.DenialsAreNeutral` | src/modules/socket/rate-limiter.ts:51-64 | deleting any set of denied calls changes no other verdict |
| `TokenBucket.RetryAfterDenialIsGranted` | src/modules/socket/rate-limiter.ts:51-64 | after a denial, a retry one token's refill time later with no grant in between succeeds |
| `TokenBucket.TokensInRange` | src/modules/socket/rate-limiter.ts:51-64 | on any clock, backward jumps included, tokens stay between zero and the capacity |
| `TokenBucket.GrantsBoundedOnAnyClock` | src/modules/socket/rate-limiter.ts:45-65 | on any clock, grants never exceed the capacity plus the refill from the first to the latest time seen |
| `TokenBucket.KeysAreIndependent` | src/modules/socket/rate-limiter.ts:31-70 | a key's bucket depends only on its own requests since its last release |
| `TokenBucket.KeyGrantsBounded` | src/modules/socket/rate-limiter.ts:45-70 | the bound on grants holds per key in any interleaving of keys and releases |
| `TokenBucket.WindowHoldsAtMost` | src/modules/socket/rate-limiter.ts:11-14 | the envelope bounds the count in every wall-clock window |
| `ControlGate.SocketGateway.HandleConnection` | src/modules/socket/socket.gateway.ts:66-139 | the new state up to the point where the ownership check is awaited |
| `ControlGate.SocketGateway.FinishConnection` | src/modules/socket/socket.gateway.ts:92-139 | the client joins the robot's room, or is dropped and its bucket released |
| `ControlGate.SocketGateway.HandleDisconnect` | src/modules/socket/socket.gateway.ts:218-247 | registrations and bucket after a disconnect, also when the status update throws |
| `ControlGate.SocketGateway.GateControl` | src/modules/socket/socket.gateway.ts:371-398 | who may proceed, and that a token is spent before the robot is looked up |
| `ControlGate.SocketGateway.HandleControl` | src/modules/socket/socket.gateway.ts:400-439 | forwards iff the gate opens and the event is well formed |
| `ControlGate.SocketGateway.HandleEmergencyStop` | src/modules/socket/socket.gateway.ts:441-452 | forwards without touching the limiter |
| `ControlGate.LimiterKeysAreLiveClients` | src/modules/socket/socket.gateway.ts:92-103 | with handshakes overtaken by disconnects at will, buckets exist only for live client sockets and every forwarded command was authorised by an ownership check |
| `ControlGate.SocketRateBounded` | src/modules/socket/socket.gateway.ts:49-52 | in every window a client socket has at most 30 plus 15 per second forwarded |
| `ControlGate.RobotRateBounded` | src/modules/socket/socket.gateway.ts:371-473 | all that a robot receives in a window, emergencies aside, is at most 30 plus 15 per second for each socket that passed its ownership check |
| `ControlGate.RunKeepsRegistrations` | src/modules/socket/socket.gateway.ts:109-112 | over every run, what is registered for a robot is a live socket of that robot |
| `ControlGate.CommandsReachLiveRobot` | src/modules/socket/socket.gateway.ts:371-452 | at every step of every run, what is forwarded, emergencies included, goes to a live socket of the robot it names |
| `ControlGate.EmergenciesDoNotInterfere` | src/modules/socket/socket.gateway.ts:441-452 | deleting all emergency stops from a run changes nothing but the emergency sends: no bucket, verdict or other command |
| `ControlGate.SocketsAreIndependent` | src/modules/socket/socket.gateway.ts:66-139 | over every run the gateway holds of each socket exactly what that socket's own events add up to |
| `ControlGate.AdmittedIffOwner` | src/modules/socket/socket.gateway.ts:92-129 | a client is let into the robot's room iff the ownership check says that it owns the robot |
| `ControlGate.RegisteredByHistory` | src/modules/socket/socket.gateway.ts:109-112 | the socket registered for a robot is the last one opened since any live socket of that robot closed |
| `ControlGate.ControlOutcome` | src/modules/socket/socket.gateway.ts:371-439 | in every run a control event is forwarded, to the registered socket, iff it is well formed, the client's own requests leave a token at 30 and 15 per second, and a socket is registered |
| `ControlGate.ControlDeliveredIff` | src/modules/socket/socket.gateway.ts:371-473 | in timely runs without a stale close, a control event of a live client is forwarded, once and to a live socket of its robot, iff it is well formed, the robot has a live socket, and every window of the client's grants has room |
| `ControlGate.OthersCommandNothing` | src/modules/socket/socket.gateway.ts:371-398 | control events and emergency stops of anybody but a live client of a robot change nothing |
| `ControlGate.EmergencyDeliveredIff` | src/modules/socket/socket.gateway.ts:441-452 | over runs without a stale close, an emergency stop of a live client is forwarded to a live socket of its robot iff the robot has one |
| `ControlGate.NextKeepsRoomsIff` | src/modules/socket/socket.gateway.ts:124-129 | a step keeps every room equal to the robot's live clients iff it does not register a socket that is already gone |
| `ControlGate.RoomsHoldLiveClients` | src/modules/socket/socket.gateway.ts:233-236 | over runs in which no ownership check outlives its socket, rooms hold exactly the live clients |
| `ControlGate.RoomsExactThroughoutIff` | src/modules/socket/socket.gateway.ts:92-129 | rooms hold exactly the live clients at every state of a run iff no ownership check outlives its socket in it |
| `ControlGate.LateJoinLeavesDeadClient` | src/modules/socket/socket.gateway.ts:92-129 | a concrete run that leaves a disconnected client in a room |
| `ControlGate.NextKeepsReachableIff` | src/modules/socket/socket.gateway.ts:109-112 | a step keeps every live robot commandable iff it does not close one of several live sockets of a robot |
| `ControlGate.RobotsStayReachable` | src/modules/socket/socket.gateway.ts:222-224 | over runs without such a close, every live robot stays commandable |
| `ControlGate.ReachableThroughoutIff` | src/modules/socket/socket.gateway.ts:222-224 | every live robot is commandable at every state of a run iff no stale socket closes in it |
| `ControlGate.ReconnectLosesRobot` | src/modules/socket/socket.gateway.ts:222-224 | a concrete reconnect after which a live robot is not registered |
| `MqttIngest.MqttIngestService.HydrateRobotState` | src/modules/mqtt-ingest/mqtt-ingest.service.ts:146-170 | every row is cached as it stands, or nothing is when the read fails |
| `MqttIngest.MqttIngestService.ScanStaleRobots` | src/modules/mqtt-ingest/mqtt-ingest.service.ts:172-197 | every cached robot takes exactly its own scan step, whatever the order and whichever writes fail |
| `MqttIngest.MqttIngestService.HandleHeartbeatMessage` | src/modules/mqtt-ingest/mqtt-ingest.service.ts:438-493 | the robot's row, cache and broadcasts after a heartbeat; no other robot changes |
| `MqttIngest.MqttIngestService.HandleStatusMessage` | src/modules/mqtt-ingest/mqtt-ingest.service.ts:504-555 | the same for a status frame |
| `MqttIngest.MqttIngestService.HandleBatteryMessage` | src/modules/mqtt-ingest/mqtt-ingest.service.ts:744-780 | the same for a battery event |
| `Liveness.LivenessSandwich` | src/modules/mqtt-ingest/mqtt-ingest.service.ts:76-82 | the throttled status lies between exact references with 20 s and 30 s thresholds, and the throttled time trails the last contact by less than 10 s |
| `Liveness.NeverDemotedEarly` | src/modules/mqtt-ingest/mqtt-ingest.service.ts:504-546 | the lower side, with heartbeat, battery and scan writes free to fail |
| `Liveness.NeverDemotedLate` | src/modules/mqtt-ingest/mqtt-ingest.service.ts:172-197 | the upper side, with heartbeat, battery and status writes free to fail |
| `Liveness.LastSeenWithinTolerance` | src/modules/mqtt-ingest/mqtt-ingest.service.ts:63-68 | while ONLINE the persisted lastSeen is less than 10 s behind the last contact |
| `Liveness.StrangersDoNotMatter` | src/modules/mqtt-ingest/mqtt-ingest.service.ts:446-451 | deleting every heartbeat whose client names itself without the prefix kpatrol_pi_ changes no run |
| `Liveness.BelievedHeartbeatCounts` | src/modules/mqtt-ingest/mqtt-ingest.service.ts:446-478 | every other heartbeat leaves the robot cached with the status it says and a contact less than 10 s old, written or not |
| `Liveness.SilentRobotDemotedInTime` | src/modules/mqtt-ingest/mqtt-ingest.service.ts:78-83 | a silent ONLINE robot is demoted by a scan more than 20 s and less than 35 s after its last contact |
| `Liveness.BatteryWithinDelta` | src/modules/mqtt-ingest/mqtt-ingest.service.ts:512-545 | the persisted battery is within 1.0 of the latest reading, whichever message brought it |
| `Liveness.BatteryWritesBounded` | src/modules/mqtt-ingest/mqtt-ingest.service.ts:750-779 | battery writes minus one are at most the total variation of the readings, failures included |
| `Liveness.BroadcastsAreFaithful` | src/modules/mqtt-ingest/mqtt-ingest.service.ts:480-492 | successive status broadcasts differ and replay to the cached status, on any clock and with any failures |
| `Liveness.BroadcastsReachOwner` | src/modules/mqtt-ingest/mqtt-ingest.service.ts:183-187 | every status broadcast goes to the row's owner and names no future time |
| `Liveness.CacheAgreesWithRow` | src/modules/mqtt-ingest/mqtt-ingest.service.ts:461-478 | with heartbeat writes succeeding and all others failing at will, cache and row name one status |
| `Liveness.HeartbeatKeepsCoherenceIff` | src/modules/mqtt-ingest/mqtt-ingest.service.ts:461-478 | exactly when a heartbeat keeps that agreement |
| `Liveness.FailedHeartbeatDiverges` | src/modules/mqtt-ingest/mqtt-ingest.service.ts:467-477 | a concrete heartbeat that breaks it |
| `Liveness.StatusFramesNeverRepair` | src/modules/mqtt-ingest/mqtt-ingest.service.ts:526-529 | status frames and battery events leave the row's status as it is while the cache says ONLINE |
| `Liveness.StatusFrameRecoversIff` | src/modules/mqtt-ingest/mqtt-ingest.service.ts:495-529 | a status frame leaves the row ONLINE iff it was, or the write succeeds and the cache did not say ONLINE |
| `Liveness.StepRepairsIff` | src/modules/mqtt-ingest/mqtt-ingest.service.ts:438-555 | exactly which steps bring a disagreeing cache and row back together |
| `Liveness.DivergenceLastsIff` | src/modules/mqtt-ingest/mqtt-ingest.service.ts:461-478 | cache and row disagree throughout a run iff none of its steps is a repairing one |
| `Liveness.WrittenHeartbeatRecovers` | src/modules/mqtt-ingest/mqtt-ingest.service.ts:461-478 | after any run, a Pi heartbeat that is written through makes cache and row agree, and they agree while heartbeat writes succeed |
| `Liveness.FrameStarvesHeartbeat` | src/modules/mqtt-ingest/mqtt-ingest.service.ts:507-529 | a concrete run in which a heartbeat whose write would succeed repairs nothing, because a status frame moved the throttle |
| `Liveness.LastSeenWritesBounded` | src/modules/mqtt-ingest/mqtt-ingest.service.ts:432-437 | lastSeen writes over a run are at most status changes plus one plus one per 10 s |
| `OwnershipCache.KeyIsInjective` | src/modules/robot/robot.service.ts:36 | the composed key determines user and robot |
| `OwnershipCache.SuffixMatchesExactly` | src/modules/robot/robot.service.ts:70 | what the suffix test matches, for any robot ids |
| `OwnershipCache.InvalidationIsExact` | src/modules/robot/robot.service.ts:65-74 | for colon-free ids exactly the robot's entries go and the others keep their order |
| `OwnershipCache.RobotService.FindOneForCommand` | src/modules/robot/robot.service.ts:35-63 | cached or not, the answer is the database's: found for the owner, not found without a row, forbidden for anybody else; the cache stays bounded and true |
| `OwnershipCache.RobotService.InvalidateOwnershipCache` | src/modules/robot/robot.service.ts:68-74 | the loop that deletes while iterating leaves exactly the survivors |
| `OwnershipCache.RobotService.Update` | src/modules/robot/robot.service.ts:141-149 | only the owner renames; a rename keeps every remaining entry true, also when the row update fails |
| `OwnershipCache.RobotService.Remove` | src/modules/robot/robot.service.ts:151-158 | only the owner removes; a removal keeps every remaining entry true |
| `OwnershipCache.RobotService.Create` | src/modules/robot/robot.service.ts:76-94 | a new row contradicts no entry |
| `OwnershipCache.EntryOutlivesInsertions` | src/modules/robot/robot.service.ts:52-57 | whatever else is inserted, an entry outlives as many insertions as there are entries before it |
| `OwnershipCache.EvictionIsFifo` | src/modules/robot/robot.service.ts:52-57 | under new keys the cache is the last 256 entries of everything inserted, in order |
| `OwnershipCache.EntryRemainsIff` | src/modules/robot/robot.service.ts:52-61 | whatever else is inserted or refilled, an entry is still there iff the fills that found 256 entries are no more than the entries before it |
| `OwnershipCache.PlaceMovesByEvictions` | src/modules/robot/robot.service.ts:52-61 | whatever is filled or refilled, a key that is not evicted stays and moves down by the number of evictions |
| `OwnershipCache.EvictionsOfNewKeys` | src/modules/robot/robot.service.ts:52-57 | under new keys the evictions are the insertions beyond the bound |
| `OwnershipCache.RefillEvictsAnother` | src/modules/robot/robot.service.ts:52-61 | refilling a cached key of a full cache drops the first entry and leaves 255, the refilled one at its old place |
| `OwnershipCache.RefilledEntryGoesEarly` | src/modules/robot/robot.service.ts:52-61 | a refilled entry that is evicted two insertions later |
| `OwnershipCache.HitIsExact` | src/modules/robot/robot.service.ts:38-41 | a true entry answers for its key exactly as the database would |
| `OwnershipCache.UncachedSaysTruth` | src/modules/robot/robot.service.ts:42-51 | found means this owner and serial, not found no row, forbidden another owner |
| `OwnershipCache.InvalidatedRowMayChange` | src/modules/robot/robot.service.ts:65-67 | after an invalidation the robot's row may change arbitrarily without making an entry false |
| `OwnershipRace.BoundedStaleness` | src/modules/robot/robot.service.ts:35-63 | in every interleaving with renames, removals and outside writers, each miss was true during its call and each hit since the clock read less than 60 s below its present reading, which on a clock that does not go back is less than 60 s earlier; the cache holds at most 256 entries |
| `OwnershipRace.LifetimeIsExact` | src/modules/robot/robot.service.ts:36-61 | a stored entry answers a later lookup iff less than 60 s have passed since its lookup began |
| `OwnershipRace.OnlyOwnersChangeRows` | src/modules/robot/robot.service.ts:141-158 | in every interleaving, outside writers aside, a row changes only by a commit whose user owned the robot before |
| `OwnershipRace.UndisturbedChangeAgrees` | src/modules/robot/robot.service.ts:141-158 | a rename or removal that nothing interrupts takes effect on that row alone and keeps cache and database in agreement |
| `OwnershipRace.NextKeepsInv` | src/modules/robot/robot.service.ts:141-158 | each awaited segment keeps every entry, call and answer witnessed by some instant of the database |
| `OwnershipRace.NextKeepsAgreementIff` | src/modules/robot/robot.service.ts:35-74 | a step keeps cache and database in agreement iff it does not write a row whose owner's entry is cached, nor cache a row that changed since it was read |
| `OwnershipRace.AgreementHoldsIff` | src/modules/robot/robot.service.ts:65-74 | cache and database agree at every state of a run iff every step of it meets that condition |
| `OwnershipRace.CommitAgreesIff` | src/modules/robot/robot.service.ts:143-158 | a pending rename or removal keeps the agreement iff no lookup has re-cached the robot, or nothing changes |
| `OwnershipRace.EndLookupAgreesIff` | src/modules/robot/robot.service.ts:42-62 | a lookup that ends keeps the agreement iff the row it read has not changed since |
| `OwnershipRace.AgreeingHitIsCurrent` | src/modules/robot/robot.service.ts:38-41 | while they agree, a hit is what the database says now |
| `OwnershipRace.OverlapGivesStaleHit` | src/modules/robot/robot.service.ts:141-158 | a rename or removal that overlaps a lookup leaves a stale entry that the next lookup is served |
| `OwnershipRace.OverlapIsReachable` | src/modules/robot/robot.service.ts:141-158 | five steps from an empty cache lead to that overlap, for every rename to another serial and for a removal |
| `OwnershipRace.UseDoesNotProtect` | src/modules/robot/robot.service.ts:36-57 | a hit on the oldest entry of a full cache does not save it from the next eviction |
| `OwnershipRace.UsedEntryIsEvicted` | src/modules/robot/robot.service.ts:36-57 | a run from an empty cache, of 257 lookups, in which the entry just used is the one evicted |
| `RefreshRotation.EachTokenExchangedOnce` | src/modules/auth/auth.controller.ts:57-61 | over all interleavings no token is exchanged twice and no two exchanges share a successor |
| `RefreshRotation.HoldersBoundedByLogins` | src/modules/auth/auth.service.ts:99-103 | each login has at most one live session or rotation under way, so together they never outnumber the logins |
| `RefreshRotation.RevokingLiveTokenIsFinal` | src/modules/auth/auth.service.ts:113-116 | revoking a live token ends its login for good, whatever is in flight |
| `RefreshRotation.RevokeEndsLoginIff` | src/modules/auth/auth.service.ts:113-116 | a logout leaves nothing of its login iff it finds the token's row, or nothing was left before |
| `RefreshRotation.NeverReturnsIff` | src/modules/auth/auth.service.ts:85-116 | no later run has a session of a login again iff no session and no rotation of it is left |
| `RefreshRotation.LogoutIsFinalIff` | src/modules/auth/auth.service.ts:113-116 | after a logout no later run has a session of the login again iff the logout found the row, or nothing was left before |
| `RefreshRotation.LogoutMissesRotation` | src/modules/auth/auth.service.ts:98-103 | a concrete logout between delete and create, after which the login has a live session |
| `RefreshRotation.FailureMidwayEndsLogin` | src/modules/auth/auth.service.ts:98-103 | an error between delete and create ends the login |
| `RefreshRotation.OnlyLiveSessionsExchanged` | src/modules/auth/auth.service.ts:85-111 | over all interleavings, every success exchanged a session that its call had read and found unexpired, for one of the same user that lasts thirty days |
| `RefreshRotation.RefreshSucceedsIff` | src/modules/auth/auth.service.ts:85-111 | alone, a refresh succeeds iff the token's session expires no earlier than now; its row goes either way |
| `RefreshRotation.LifetimeIsThirtyDays` | src/modules/auth/auth.service.ts:122-132 | left alone, a token can be exchanged up to thirty calendar days after its login, to the millisecond |
| `RefreshRotation.CleanupTakesExpired` | src/modules/maintenance/maintenance.service.ts:35-43 | the clean-up removes exactly the sessions that have expired |
| `RefreshRotation.NextKeepsInv` | src/modules/auth/auth.service.ts:85-132 | every round trip, failure, logout and cleanup keeps one holder per login |
| `RefreshRotation.UndisturbedRefresh` | src/modules/auth/auth.service.ts:85-111 | run alone, the split protocol amounts to one rotation |
| `RefreshRotation.AuthService.Refresh` | src/modules/auth/auth.service.ts:85-111 | a new token iff the session exists and has not expired; the table after live, expired and unknown tokens |
| `RefreshRotation.AuthService.RevokeRefreshToken` | src/modules/auth/auth.service.ts:114-116 | the token's session is gone and no other changes |
| `RefreshRotation.AuthService.CreateRefreshToken` | src/modules/auth/auth.service.ts:122-132 | a session of thirty calendar days of local time under the new token |
| `AlarmRules.ReplicationHolds` | src/modules/alarm-rule/alarm-rule.service.ts:21-24 | over every run of rule changes, robot registrations, renames and deletions, and broker events, a connected broker retains each robot's enabled rules, oldest first, while every serial change finds the right rules retained |
| `AlarmRules.ReplicatedThroughoutIff` | src/modules/alarm-rule/alarm-rule.service.ts:21-24 | replication holds at every state of a run iff every serial change in it finds the right rules retained |
| `AlarmRules.NextReplicatesIff` | src/modules/alarm-rule/alarm-rule.service.ts:44-134 | exactly which steps keep that |
| `AlarmRules.ReplicationResumes` | src/modules/mqtt-ingest/mqtt-ingest.service.ts:906-930 | whatever happened before, it holds again from the next connect on |
| `AlarmRules.WipedBrokerRestored` | src/modules/mqtt-ingest/mqtt-ingest.service.ts:906-930 | a broker that lost its messages has every robot's rules again at the next connect, and nothing else |
| `AlarmRules.NothingPublishedOffline` | src/modules/mqtt-ingest/mqtt-ingest.service.ts:892-904 | between a disconnect and the next connect nothing is published |
| `AlarmRules.OnlyOwnersMatter` | src/modules/alarm-rule/alarm-rule.service.ts:197-205 | deleting from a run every rule change by a user who does not own the robot changes nothing |
| `AlarmRules.OwnerChangesTable` | src/modules/alarm-rule/alarm-rule.service.ts:44-134 | what the owner's requests do to the table: one rule added, changed in place, or taken out |
| `AlarmRules.UpdateIsColumnwise` | src/modules/alarm-rule/alarm-rule.service.ts:89-111 | each column takes what the request gives for it, or stays |
| `AlarmRules.CreateIsDefaultThenUpdate` | src/modules/alarm-rule/alarm-rule.service.ts:50-69 | creating is creating with the defaults, all named, and then applying the request |
| `AlarmRules.ConnectRestores` | src/modules/mqtt-ingest/mqtt-ingest.service.ts:906-930 | connecting restores this from any state of the broker |
| `AlarmRules.ProjectionIsExact` | src/modules/alarm-rule/alarm-rule.service.ts:160-176 | the payload shows exactly the robot's enabled rules, column by column |
| `AlarmRules.ProjectionConcat` | src/modules/alarm-rule/alarm-rule.service.ts:160-163 | and in the order of the table |
| `AlarmRules.RegisterReplicatesIff` | src/modules/robot/robot.service.ts:76-94 | registering a robot keeps replication iff nothing is retained under its serial |
| `AlarmRules.RenameReplicatesIff` | src/modules/robot/robot.service.ts:141-149 | changing a serial keeps it iff the new serial already retains the robot's rules; with nothing retained there, iff the robot has no enabled rule |
| `AlarmRules.ReusedSerialIsStale` | src/modules/robot/robot.service.ts:76-94 | a concrete run in which a new robot inherits the retained rules of a deleted one |
| `AlarmRules.RenamedRobotLosesRules` | src/modules/robot/robot.service.ts:141-149 | a concrete run in which a renamed robot has rules but none retained |
| `AlarmRules.AlarmRuleService.CreateRule` | src/modules/alarm-rule/alarm-rule.service.ts:44-72 | not found without the robot, denied to anybody but its owner, else the new rule with its defaults appended and republished |
| `AlarmRules.AlarmRuleService.UpdateRule` | src/modules/alarm-rule/alarm-rule.service.ts:74-114 | who is refused and why, explicit nulls included, and else the changed rule and the republished state |
| `AlarmRules.AlarmRuleService.UpdateRow` | src/modules/alarm-rule/alarm-rule.service.ts:89-111 | the column-by-column assignments change what the request names and nothing else; a null email clears the column, notification columns leave the payload alone, and repeating the request changes nothing |
| `AlarmRules.AlarmRuleService.RemoveRule` | src/modules/alarm-rule/alarm-rule.service.ts:116-134 | who is refused and why, and else the table without the rule and the republished state |
| `AlarmRules.AlarmRuleService.PublishRulesForRobot` | src/modules/alarm-rule/alarm-rule.service.ts:154-180 | the robot's projection is retained when robot and broker are there |
| `AlarmRules.AlarmRuleService.PublishAlarmRules` | src/modules/mqtt-ingest/mqtt-ingest.service.ts:892-904 | skipped without a broker |
| `AlarmRules.AlarmRuleService.OnConnect` | src/modules/mqtt-ingest/mqtt-ingest.service.ts:912-930 | the hydration loop publishes every robot and leaves other retained messages alone |
| `Alerts.RedeliveriesDoNotMatter` | src/modules/mqtt-ingest/mqtt-ingest.service.ts:368-370 | deleting any deliveries whose key is taken, redeliveries above all, leaves the table as it was, in streams with and without ids |
| `Alerts.FirstDeliveryWins` | src/modules/mqtt-ingest/mqtt-ingest.service.ts:371-400 | the rows are exactly those that describe the accepted deliveries whose key was not taken |
| `Alerts.AcceptedIff` | src/modules/mqtt-ingest/mqtt-ingest.service.ts:347-359 | accepted are messages with a confidence and of kind person, fire or motion |
| `Alerts.RowDescribes` | src/modules/mqtt-ingest/mqtt-ingest.service.ts:361-400 | the stored row tells type, severity, text, box, frame and data of the message |
| `Alerts.StoredIff` | src/modules/mqtt-ingest/mqtt-ingest.service.ts:371-400 | in any stream an accepted delivery gets its own row iff no earlier accepted alert of the robot has the id that it looks up |
| `Alerts.OneRowPerAlert` | prisma/schema.prisma:225 | no two rows with an external id share robot and id |
| `Alerts.IdlessRedeliveryIgnoredIff` | src/modules/mqtt-ingest/mqtt-ingest.service.ts:372-391 | a repeated message without an id is ignored iff a row with id 0 exists |
| `Alerts.IdlessAlertStoredTwice` | src/modules/mqtt-ingest/mqtt-ingest.service.ts:372-391 | an alert without an id delivered twice to an empty table is stored twice |
| `Alerts.IdlessAlertLost` | src/modules/mqtt-ingest/mqtt-ingest.service.ts:372-391 | after an alert with id 0 another alert without an id gets no row |
| `Alerts.AlertStore.HandleAlertMessage` | src/modules/mqtt-ingest/mqtt-ingest.service.ts:342-417 | the table after a message, and the row under its key that is broadcast without its picture, also when the upsert throws |
| `Topics.TopicParsesBackIff` | src/modules/mqtt-ingest/mqtt-ingest.service.ts:419-430 | exactly the prefixes, serials and suffixes that parsing gives back |
| `Topics.AcceptedTopicRebuilds` | src/modules/mqtt-ingest/mqtt-ingest.service.ts:419-430 | an accepted topic is its parts joined again |
| `Topics.ForwardedIsNeverIngested` | src/modules/mqtt-ingest/mqtt-ingest.service.ts:819-853 | whatever prefix and serial are, a forwarded topic never parses to a suffix that ingest handles |
| `Topics.SentIff` | src/modules/mqtt-ingest/mqtt-ingest.service.ts:841-853 | sent are exactly the thirteen allowed suffixes, on a connected broker, under prefix, serial and suffix joined |
| `Topics.SentParsesBack` | src/modules/mqtt-ingest/mqtt-ingest.service.ts:841-853 | what is sent for a slash-free serial parses back to that serial and suffix |

## Left out

- Email, Zalo, SMTP, fetch, the MQTT and Socket.IO transports, JWT, bcrypt, CSRF, headers and the HTTP throttler: foreign calls or thin wrappers. Random tokens and database ids are taken to be fresh.
- Raw fan-out of heartbeat, status, safety, battery and peripheral payloads, and the alarm trigger history: no state is kept.
- The gateway's own writes of `Robot.status` and `batteryLevel`: the ingest results are about a database that only ingest writes.
- Ingest handlers are atomic: a scan or another message that overtakes a handler at its await, and a clock that moves between the start of a handler and its write, are not modelled. The order in which one scan visits robots is not fixed.
- `Liveness.LivenessSandwich` needs status-frame and scan writes to succeed; each side needs only one of the two (`Liveness.NeverDemotedEarly`, `Liveness.NeverDemotedLate`).
- `Liveness.LivenessSandwich`, `Liveness.LastSeenWithinTolerance` and `Liveness.LastSeenWritesBounded` start from rows whose `lastSeen` is not in the future.
- `Liveness.BatteryWithinDelta` is about runs whose status-frame and battery writes succeed; after a failed one the reading is simply not stored.
- The gateway's throttled log lines, `robotStates` cache, telemetry relays and the rest of the handshake's credential parsing: the outcome of authentication is an input.
- `ControlGate.SocketRateBounded`, `ControlGate.RobotRateBounded` and the time bounds of `Liveness` (`Liveness.LivenessSandwich`, `Liveness.LastSeenWithinTolerance`, `Liveness.SilentRobotDemotedInTime`, `Liveness.LastSeenWritesBounded`) are for clocks that do not go back; `TokenBucket.KeyGrantsBounded` is the bound on any clock.
- `OwnershipCache.RobotService.FindOneForCommand` and `OwnershipRace.BoundedStaleness` are for user ids without a colon, which database ids never contain; robot ids are arbitrary.
- `AlarmRules.ReplicationHolds` is about publishes whose database reads succeed. Two rules created in the same millisecond are taken to be ordered by insertion. The payload's time stamp is not modelled.
- Two overlapping republishes of one robot: rule operations run one at a time.
- The local calendar behind a session's thirty days: how far the zone's offset from UTC falls meanwhile is an input. An error inside the database ends a refresh at any point but has no other effect.
- Users, registration details and the deletion of users with their sessions: login and registration are one step that creates a session.
- Patrols, statistics, pagination, notification inbox, light schedule, event history and request validation: one-branch facts.
- Alarm dwell, cooldown and time-window evaluation run on the robot and are not in this repository.
- JavaScript's floating-point rounding and `NaN`: readings and tokens are exact reals.
