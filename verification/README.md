# Matchmaking service model

This project is a Dafny model of the matchmaking service of Open Game Backend.

Game servers do four things:
- register themselves, naming their version, game mode, region, endpoint and capacity;
- send heartbeats;
- open or close themselves for allocation;
- report when an allocated player has joined or left.

Players do three things:
- enqueue, naming the version, game mode and region they want;
- dequeue;
- poll for a match.

A poll from a player who has no server yet runs two sweeps:
- servers whose heartbeat is older than 120 seconds are deleted;
- MATCHED players who have not joined within 120 seconds are removed.

It then allocates the player to a candidate server, or answers SERVERS_FULL. A candidate server is OPEN, has room, and matches the player's version, game mode and region. Two read-only listings return the stored servers and the stored players.

The state is two stores keyed by id:
- `State.servers: map<ServerId, GameServer>`;
- `State.players: map<PlayerId, Player>`.

Each operation is a pure function from a state to `Outcome<T>`. An outcome is either the service's error, or the new state together with the response.

Three things the service takes from its environment are parameters here:
- the clock, as `now: Time` in whole seconds;
- the generated id of a newly registered server, as `freshId`;
- the order in which the store enumerates servers, as `scan`.

Claims about every stored server assume `Covers(scan, servers)`, that is, the scan lists every stored server. A `null` string field of a request and the empty string are both modelled as `""`, because the service rejects both alike. This holds for the string fields only: a missing status in a status change is not rejected (see "## Left out").

`ServiceState.Wf` is the invariant every operation of the model preserves; registration does so given a scan of the whole store (`Covers`):
- ids are non-empty;
- required fields are filled in;
- each player's optional fields agree with its status;
- each membership list is within capacity;
- no two servers share an endpoint.

Unique endpoints hold only because the model corrects two places where the code saves a deleted server back into the store. The code as written does not keep endpoints unique. "## Findings" below gives an input for each place.

A server's membership list is modelled as the list the service edits in memory during a request. The database does not store that list. It derives membership from each player's back-reference to its server. The invariant says nothing about how the list and the back-references relate. `Properties.ReRegisterOrphansPlayers` shows the in-memory list and a back-reference disagreeing.

The code allocates a player to the LEAST-occupied candidate:
- it sorts candidates stably by ascending player count;
- it takes the head, which is the earliest in store order on ties.

The comment above that sort says servers are filled as quickly as possible. This model follows the code: `Allocation.FirstLeast` and `Allocation.PollPicksLeastOccupied` state least-occupied selection.

Other choices the model makes:
- **Poll fast path with a dangling server reference.** The code answers an assigned player from the copy of the server its record holds, even when that server has been deleted, as it saves such a copy back on enqueue (see Findings). A player record here holds only the server's id, so `Allocation.PollMatchmaking` reports `DanglingServerReference` there instead. `AsWritten.PollAsWritten` takes the held copy as a parameter and answers from it, as the code does.
- **Join report for a listed id with no player record.** `NotifyPlayerJoined` acknowledges it and changes nothing.
- **Leave report.** `NotifyPlayerLeft` removes one occurrence of the player from the reporting server's list. That server is the one the listed entry belongs to.
- **MATCHED player with no matched time.** It never expires. No operation produces this state.

Paths in the table below are relative to the repository root.

## Model

| member | source | states |
|---|---|---|
| Entities.IsFull | src/main/java/de/opengamebackend/matchmaking/model/entities/GameServer.java:102-104 | a server is full exactly when it has no room below its capacity; a capacity of zero or less is always full |
| ServiceState.FirstMissing | src/main/java/de/opengamebackend/matchmaking/controller/MatchmakingService.java:81-95 | validation reports the error of the first empty field and only that one; it reports nothing exactly when every field is filled in |
| Membership.RemoveOnce | src/main/java/de/opengamebackend/matchmaking/controller/MatchmakingService.java:256-259 | removing the expired players from a list takes away exactly one occurrence of each, as multisets, and leaves a list with none of them unchanged; the order of what remains is stated by Membership.RemoveOnceStepwise |
| Membership.RemoveOnceStepwise | src/main/java/de/opengamebackend/matchmaking/controller/MatchmakingService.java:259 | removing a set of ids together gives the same list as removing the first occurrence of one of them and then the others, so the order of what remains is that of repeated first-occurrence removal |
| Membership.RemoveEachIsRemoveOnce | src/main/java/de/opengamebackend/matchmaking/controller/MatchmakingService.java:259 | removing distinct ids one at a time, in any order, as the per-player removal at :259 does, leaves the same list as the model's bulk removal |
| Membership.RemoveOnceKeepsOnly | src/main/java/de/opengamebackend/matchmaking/controller/MatchmakingService.java:256-259 | removing the expired players from a list never introduces an id |
| Membership.RemoveFirst | src/main/java/de/opengamebackend/matchmaking/controller/MatchmakingService.java:407-408 | a list removal takes out the FIRST occurrence of the player: what stands before it and after it stays, in order; it changes nothing when the player is absent |
| Membership.RemoveFirstMultiset | src/main/java/de/opengamebackend/matchmaking/controller/MatchmakingService.java:184-185 | a list removal takes exactly one occurrence of the player out of the list's contents, or nothing when it is absent |
| ServerLifecycle.FindByEndpoint | src/main/java/de/opengamebackend/matchmaking/controller/MatchmakingService.java:97-104 | the lookup finds the FIRST scanned stored server on the requested address and port, every earlier scanned server listening elsewhere; it finds none exactly when no scanned server listens there |
| ServerLifecycle.Register | src/main/java/de/opengamebackend/matchmaking/controller/MatchmakingService.java:79-119 | errors for game mode, address, region and version, in that order; on success the returned id holds an OPEN, empty record built from the request and heard from now; the id is reused exactly when a scanned server has the endpoint, and is `freshId` otherwise; no other server and no player changes; this is the corrected registration (see Findings) |
| ServerLifecycle.LookupServer | src/main/java/de/opengamebackend/matchmaking/controller/MatchmakingService.java:123-131 | an empty id and an unknown id give their two errors; otherwise the stored record is returned |
| ServerLifecycle.Deregister | src/main/java/de/opengamebackend/matchmaking/controller/MatchmakingService.java:121-136 | the two id errors; on success exactly that server is gone and players are untouched |
| ServerLifecycle.SendHeartbeat | src/main/java/de/opengamebackend/matchmaking/controller/MatchmakingService.java:138-155 | the two id errors; on success only that server's heartbeat becomes now |
| ServerLifecycle.SetStatus | src/main/java/de/opengamebackend/matchmaking/controller/MatchmakingService.java:383-400 | the two id errors; on success only that server's status changes, and the response echoes the id and status |
| ServerLifecycle.RegisterReusesEndpoint | src/main/java/de/opengamebackend/matchmaking/controller/MatchmakingService.java:97-110 | with the whole store scanned, registering an endpoint a stored server listens on returns that server's id |
| ServerLifecycle.ReRegisterKeepsId | src/main/java/de/opengamebackend/matchmaking/controller/MatchmakingService.java:97-112 | registering the same endpoint twice returns the same id, and membership is emptied again |
| ServerLifecycle.RegisterPreservesWf | src/main/java/de/opengamebackend/matchmaking/controller/MatchmakingService.java:79-119 | registration keeps the state invariant, including unique endpoints |
| ServerLifecycle.DeregisterPreservesWf | src/main/java/de/opengamebackend/matchmaking/controller/MatchmakingService.java:121-136 | deregistration keeps the state invariant |
| ServerLifecycle.SendHeartbeatPreservesWf | src/main/java/de/opengamebackend/matchmaking/controller/MatchmakingService.java:138-155 | a heartbeat keeps the state invariant |
| ServerLifecycle.SetStatusPreservesWf | src/main/java/de/opengamebackend/matchmaking/controller/MatchmakingService.java:383-400 | a status change keeps the state invariant |
| ServerLifecycle.SetStatusUndo | src/main/java/de/opengamebackend/matchmaking/controller/MatchmakingService.java:395-399 | setting the previous status back restores the original state |
| ServerLifecycle.DeregisterThenNotFound | src/main/java/de/opengamebackend/matchmaking/controller/MatchmakingService.java:127-133 | after deregistration, deregister, heartbeat and status change on that id all fail with not found |
| Queue.Detach | src/main/java/de/opengamebackend/matchmaking/controller/MatchmakingService.java:183-187 | only the server the player is assigned to changes, and it loses one occurrence of the player |
| Queue.Enqueue | src/main/java/de/opengamebackend/matchmaking/controller/MatchmakingService.java:157-196 | errors for player id, game mode, region and version, in that order; on success the player is QUEUED with the request's filters, no server and no timestamps, and keeps its ticket; its old server loses one occurrence of it; nothing else changes |
| Queue.Dequeue | src/main/java/de/opengamebackend/matchmaking/controller/MatchmakingService.java:198-213 | missing id and unknown player are errors; on success only that record is deleted, and server lists are untouched |
| Queue.EnqueueIdempotent | src/main/java/de/opengamebackend/matchmaking/controller/MatchmakingService.java:175-193 | enqueueing the same request twice equals enqueueing it once |
| Queue.EnqueueThenDequeue | src/main/java/de/opengamebackend/matchmaking/controller/MatchmakingService.java:157-213 | dequeueing a newly enqueued player restores the original state |
| Queue.DetachPreservesWf | src/main/java/de/opengamebackend/matchmaking/controller/MatchmakingService.java:183-187 | detaching keeps every server well formed and endpoints unique |
| Queue.EnqueuePreservesWf | src/main/java/de/opengamebackend/matchmaking/controller/MatchmakingService.java:157-196 | enqueueing keeps the state invariant |
| Queue.DequeuePreservesWf | src/main/java/de/opengamebackend/matchmaking/controller/MatchmakingService.java:198-213 | dequeueing keeps the state invariant |
| Allocation.ExpireServers | src/main/java/de/opengamebackend/matchmaking/controller/MatchmakingService.java:242-250 | a server survives exactly when its heartbeat plus 120 is not before now; survivors and players are unchanged |
| Allocation.ExpirePlayers | src/main/java/de/opengamebackend/matchmaking/controller/MatchmakingService.java:252-259 | a player survives exactly when it is not MATCHED past its 120-second join window; QUEUED and JOINED players always survive; each server keeps its fields and loses exactly one occurrence of each expired player pointing at it |
| Allocation.ExpirePlayersQuiet | src/main/java/de/opengamebackend/matchmaking/controller/MatchmakingService.java:252-259 | with no expired player, the player sweep is the identity |
| Allocation.SweepWithoutExpiredPlayers | src/main/java/de/opengamebackend/matchmaking/controller/MatchmakingService.java:242-259 | with no expired player, the two sweeps amount to the server sweep |
| Allocation.QuietSweep | src/main/java/de/opengamebackend/matchmaking/controller/MatchmakingService.java:242-259 | with nothing expired, the sweeps change nothing |
| Allocation.CandidatesInScan | src/main/java/de/opengamebackend/matchmaking/controller/MatchmakingService.java:261-270 | an id is a candidate exactly when it is scanned, stored, OPEN, has room and matches the player's filters; candidates keep the order of the scan |
| Allocation.LeastIndex | src/main/java/de/opengamebackend/matchmaking/controller/MatchmakingService.java:273-276 | the head of a stable ascending sort: a least element, with every earlier one strictly greater |
| Allocation.FirstLeast | src/main/java/de/opengamebackend/matchmaking/controller/MatchmakingService.java:272-276 | the chosen server is a least-occupied candidate, and every candidate before it is strictly fuller; there is none exactly when the list is empty |
| Allocation.Choose | src/main/java/de/opengamebackend/matchmaking/controller/MatchmakingService.java:261-284 | there is no choice exactly when no scanned server is a candidate after the sweeps; otherwise the choice is a candidate with least occupancy among scanned candidates |
| Allocation.Allocate | src/main/java/de/opengamebackend/matchmaking/controller/MatchmakingService.java:286-294 | the player becomes MATCHED on the server at now and is appended to that server's list; nothing else changes |
| Allocation.PollMatchmaking | src/main/java/de/opengamebackend/matchmaking/controller/MatchmakingService.java:215-305 | missing id and unknown player are errors; an assigned player gets its server back with no change; SERVERS_FULL exactly when no server is named, and the state is then the swept state; a named server holds the player, and MATCH_FOUND holds exactly when it is full |
| Allocation.PollAllocates | src/main/java/de/opengamebackend/matchmaking/controller/MatchmakingService.java:261-304 | a successful allocation picks a least-occupied scanned candidate; the player is MATCHED at now and appended within capacity; nothing else changes after the sweeps |
| Allocation.PollIsAllocation | src/main/java/de/opengamebackend/matchmaking/controller/MatchmakingService.java:276-294 | a successful allocation is the allocation of the player to the chosen server in the swept state |
| Allocation.PollPicksLeastOccupied | src/main/java/de/opengamebackend/matchmaking/controller/MatchmakingService.java:272-276 | with the whole store scanned, the chosen server is no fuller than any candidate left after the sweeps |
| Allocation.PollBreaksTiesInScanOrder | src/main/java/de/opengamebackend/matchmaking/controller/MatchmakingService.java:272-276 | a candidate exactly as occupied as the chosen server, but not chosen, comes after it in the scan: ties go to the earliest in store order |
| Allocation.LeastTieComesLater | src/main/java/de/opengamebackend/matchmaking/controller/MatchmakingService.java:272-276 | among a scan's candidates, one exactly as occupied as the pick comes after it in the scan |
| Allocation.PollAvoidsBusierServer | src/main/java/de/opengamebackend/matchmaking/controller/MatchmakingService.java:265-276 | when a candidate holds fewer players than another server, the poll does not choose the fuller server |
| Allocation.PollFindsCandidate | src/main/java/de/opengamebackend/matchmaking/controller/MatchmakingService.java:261-284 | with the whole store scanned, an unassigned player for whom a candidate exists is never told SERVERS_FULL |
| Allocation.PollServersFullMeansNoCandidate | src/main/java/de/opengamebackend/matchmaking/controller/MatchmakingService.java:276-284 | with the whole store scanned, SERVERS_FULL means no server left after the sweeps is a candidate |
| Allocation.Sweep | src/main/java/de/opengamebackend/matchmaking/controller/MatchmakingService.java:242-259 | exactly the servers whose heartbeat has not expired survive, with only their lists changed, so no expired server outlives the sweeps; exactly the players not past their join window survive, unchanged |
| Allocation.Connection | src/main/java/de/opengamebackend/matchmaking/controller/MatchmakingService.java:232-237 | the answer names the server's id, address and port; it is MATCH_FOUND exactly when the server is full and never SERVERS_FULL |
| Allocation.PollNeverAllocatesExpiredServer | src/main/java/de/opengamebackend/matchmaking/controller/MatchmakingService.java:242-304 | a poll never places a player on a server whose heartbeat has expired |
| Allocation.PollIdempotent | src/main/java/de/opengamebackend/matchmaking/controller/MatchmakingService.java:227-240 | polling again after a server was named gives the same answer and state, at any time and scan order |
| Allocation.ExpireServersPreservesWf | src/main/java/de/opengamebackend/matchmaking/controller/MatchmakingService.java:242-250 | the server sweep keeps the state invariant |
| Allocation.ExpirePlayersPreservesWf | src/main/java/de/opengamebackend/matchmaking/controller/MatchmakingService.java:252-259 | the player sweep keeps the state invariant |
| Allocation.SweepPreservesWf | src/main/java/de/opengamebackend/matchmaking/controller/MatchmakingService.java:242-259 | both sweeps keep the state invariant |
| Allocation.AllocatePreservesWf | src/main/java/de/opengamebackend/matchmaking/controller/MatchmakingService.java:286-294 | allocating to a server with room keeps the state invariant |
| Allocation.PollPreservesWf | src/main/java/de/opengamebackend/matchmaking/controller/MatchmakingService.java:215-305 | polling keeps the state invariant |
| Notifications.CheckListed | src/main/java/de/opengamebackend/matchmaking/controller/MatchmakingService.java:309-328 | errors for server id, player id, unknown server and unlisted player, in that order; success exactly when the server is stored and lists the player |
| Notifications.RemovePlayer | src/main/java/de/opengamebackend/matchmaking/controller/MatchmakingService.java:402-413 | the record is deleted; the player's stored server loses exactly one occurrence of it; nothing else changes |
| Notifications.NotifyPlayerJoined | src/main/java/de/opengamebackend/matchmaking/controller/MatchmakingService.java:307-346 | fails exactly as the shared validation does; a player not yet JOINED becomes JOINED at now; a JOINED player leaves the state unchanged; servers and other players are untouched |
| Notifications.NotifyPlayerLeft | src/main/java/de/opengamebackend/matchmaking/controller/MatchmakingService.java:348-381 | fails exactly as the shared validation does; the player's record is deleted and the reporting server's list shrinks by one occurrence of the player; nothing else changes |
| Notifications.NotifyPlayerJoinedIdempotent | src/main/java/de/opengamebackend/matchmaking/controller/MatchmakingService.java:330-340 | a repeated join report changes nothing more |
| Notifications.RemovePlayerPreservesWf | src/main/java/de/opengamebackend/matchmaking/controller/MatchmakingService.java:402-413 | removing a player keeps the state invariant |
| Notifications.NotifyPlayerJoinedPreservesWf | src/main/java/de/opengamebackend/matchmaking/controller/MatchmakingService.java:307-346 | a join report keeps the state invariant |
| Notifications.NotifyPlayerLeftPreservesWf | src/main/java/de/opengamebackend/matchmaking/controller/MatchmakingService.java:348-381 | a leave report keeps the state invariant |
| Listings.GetServers | src/main/java/de/opengamebackend/matchmaking/controller/MatchmakingService.java:41-62 | every entry is a scanned stored server with its record and member ids, and entries follow the scan order; every scanned stored server is listed |
| Listings.GetQueue | src/main/java/de/opengamebackend/matchmaking/controller/MatchmakingService.java:64-77 | every entry is a scanned stored player with its record and its server's id, or none, and entries follow the scan order; every scanned stored player is listed |
| Listings.GetServersOnce | src/main/java/de/opengamebackend/matchmaking/controller/MatchmakingService.java:46 | over an enumeration that yields each stored server once, the listing names each server once |
| Listings.GetQueueOnce | src/main/java/de/opengamebackend/matchmaking/controller/MatchmakingService.java:69 | over an enumeration that yields each stored player once, the queue names each player once |
| Listings.GetServersListsAll | src/main/java/de/opengamebackend/matchmaking/controller/MatchmakingService.java:46-58 | with the whole store scanned, the listing names exactly the stored servers |
| Listings.GetQueueListsAll | src/main/java/de/opengamebackend/matchmaking/controller/MatchmakingService.java:69-73 | with the whole store scanned, the queue names exactly the stored players |
| Properties.HeartbeatKeepsServerAlive | src/main/java/de/opengamebackend/matchmaking/controller/MatchmakingService.java:242-250 | a server heard from at t survives the server sweep exactly up to t + 120 |
| Properties.ClosedServerNeverChosen | src/main/java/de/opengamebackend/matchmaking/controller/MatchmakingService.java:265-266 | a poll never allocates to a server that was just closed |
| Properties.MatchedPlayerJoins | src/main/java/de/opengamebackend/matchmaking/controller/MatchmakingService.java:326-338 | a matched player listed by its server can report joining, becomes JOINED and then never expires |
| Properties.AppendedPlayerLeaves | src/main/java/de/opengamebackend/matchmaking/controller/MatchmakingService.java:366-375 | a leave report undoes an append, up to order |
| Properties.AppendedPlayerReEnqueues | src/main/java/de/opengamebackend/matchmaking/controller/MatchmakingService.java:183-190 | re-enqueueing undoes an append, up to order, and leaves the player QUEUED with no server |
| Properties.AllocatedPlayerCanJoin | src/main/java/de/opengamebackend/matchmaking/controller/MatchmakingService.java:286-338 | after an allocation, the server's join report succeeds and the player no longer expires |
| Properties.AllocatedPlayerLeaves | src/main/java/de/opengamebackend/matchmaking/controller/MatchmakingService.java:286-375 | leaving right after allocation gives the slot back |
| Properties.ReEnqueueFreesSlot | src/main/java/de/opengamebackend/matchmaking/controller/MatchmakingService.java:183-191 | re-enqueueing right after allocation gives the slot back |
| Properties.ReRegisterOrphansPlayers | src/main/java/de/opengamebackend/matchmaking/controller/MatchmakingService.java:106-112 | re-registering an allocated server keeps its id but drops the player from its list, while the player still points at it |
| Scenarios.SingleCandidateChosen | src/main/java/de/opengamebackend/matchmaking/controller/MatchmakingService.java:261-276 | with nothing to sweep, the single stored candidate is chosen |
| Scenarios.PollSingleCandidate | src/main/java/de/opengamebackend/matchmaking/controller/MatchmakingService.java:261-304 | with nothing to sweep, a poll allocates to the single stored candidate |
| Scenarios.RegisterFirstServer | src/main/java/de/opengamebackend/matchmaking/controller/MatchmakingService.java:79-119 | registering into an empty service stores an open, empty server under the fresh id |
| Scenarios.FirstPlayerQueues | src/main/java/de/opengamebackend/matchmaking/controller/MatchmakingService.java:157-196 | the first player's enqueue stores a QUEUED record and leaves servers as they were |
| Scenarios.FirstPlayerWaits | src/main/java/de/opengamebackend/matchmaking/controller/MatchmakingService.java:286-304 | the first player is allocated to a two-seat server and told to wait for players |
| Scenarios.SecondPlayerQueues | src/main/java/de/opengamebackend/matchmaking/controller/MatchmakingService.java:157-196 | a second enqueue leaves the allocated player and its server untouched |
| Scenarios.AllocateSingle | src/main/java/de/opengamebackend/matchmaking/controller/MatchmakingService.java:286-294 | allocating to the only stored server leaves a one-server store whose list gained the player |
| Scenarios.FirstQueuedIsQuiet | src/main/java/de/opengamebackend/matchmaking/controller/MatchmakingService.java:242-259 | at time 20 the sweeps change nothing in the state after the first enqueue |
| Scenarios.FirstAllocation | src/main/java/de/opengamebackend/matchmaking/controller/MatchmakingService.java:286-294 | allocating the first player at time 20 gives the state with that player MATCHED on the server |
| Scenarios.SecondQueuedIsQuiet | src/main/java/de/opengamebackend/matchmaking/controller/MatchmakingService.java:242-259 | at time 30 the sweeps change nothing in the state after the second enqueue |
| Scenarios.SecondPlayerFills | src/main/java/de/opengamebackend/matchmaking/controller/MatchmakingService.java:286-304 | the second player fills the server and is told the match is found; the server lists both players in allocation order |
| AsWritten.RegisterAsWritten | src/main/java/de/opengamebackend/matchmaking/controller/MatchmakingService.java:97-116 | registration as written succeeds exactly when the fields are filled in and a scanned stored server has the endpoint, and then agrees with the corrected registration |
| AsWritten.FirstRegistrationFails | src/main/java/de/opengamebackend/matchmaking/controller/MatchmakingService.java:104-112 | the first registration into an empty service fails as written, while the corrected registration stores the server |
| AsWritten.SweepAsWritten | src/main/java/de/opengamebackend/matchmaking/controller/MatchmakingService.java:242-259 | the sweeps as written keep exactly the servers that have not expired plus the expired servers an expired player points at, each minus its expired players |
| AsWritten.SameExpiry | src/main/java/de/opengamebackend/matchmaking/controller/MatchmakingService.java:246-258 | the server sweep changes neither which players expire nor which server they point at |
| AsWritten.SweptListQuiet | src/main/java/de/opengamebackend/matchmaking/controller/MatchmakingService.java:242-259 | with no expired player, a surviving server keeps its list |
| AsWritten.SweptList | src/main/java/de/opengamebackend/matchmaking/controller/MatchmakingService.java:242-259 | a server the corrected sweeps keep loses the first occurrence of each of its expired players, the rest staying in order (Membership.RemoveOnceStepwise) |
| AsWritten.SweepAsWrittenOnlyResurrects | src/main/java/de/opengamebackend/matchmaking/controller/MatchmakingService.java:242-259 | the sweeps as written agree with the corrected ones on every server those keep, and add only servers whose heartbeat has expired |
| AsWritten.ExpiredServerKept | src/main/java/de/opengamebackend/matchmaking/controller/MatchmakingService.java:250-259 | on the example store, the sweeps as written store the expired server again, emptied |
| AsWritten.LoneCandidatePicked | src/main/java/de/opengamebackend/matchmaking/controller/MatchmakingService.java:261-276 | scanning a single candidate picks it |
| AsWritten.ExpiredServerResurrected | src/main/java/de/opengamebackend/matchmaking/controller/MatchmakingService.java:242-276 | on the example store, the expired server survives the sweeps as written and is the one the selection picks |
| AsWritten.NoCandidatesInEmptyStore | src/main/java/de/opengamebackend/matchmaking/controller/MatchmakingService.java:261-270 | a store without servers has no candidates |
| AsWritten.NothingLeftMeansFull | src/main/java/de/opengamebackend/matchmaking/controller/MatchmakingService.java:261-284 | a poll whose sweeps leave no server answers SERVERS_FULL |
| AsWritten.ExpiredServerStaysDeleted | src/main/java/de/opengamebackend/matchmaking/controller/MatchmakingService.java:242-284 | on the same store the corrected poll deletes the server and answers SERVERS_FULL |
| AsWritten.DetachAsWritten | src/main/java/de/opengamebackend/matchmaking/controller/MatchmakingService.java:183-187 | as written, a player whose server is no longer stored brings back the copy it refers to, minus the player; otherwise it is the corrected detachment |
| AsWritten.ReregisteredReached | src/main/java/de/opengamebackend/matchmaking/controller/MatchmakingService.java:121-136 | deregistering a server and registering its endpoint again under a fresh id reaches the example state |
| AsWritten.ReregisteredWf | src/main/java/de/opengamebackend/matchmaking/controller/MatchmakingService.java:79-136 | the example state satisfies the invariant |
| AsWritten.ReEnqueueDuplicatesEndpoint | src/main/java/de/opengamebackend/matchmaking/controller/MatchmakingService.java:183-187 | re-enqueueing a player of the deregistered server stores two servers on one endpoint as written, and none with the corrected detachment |
| AsWritten.PollAsWritten | src/main/java/de/opengamebackend/matchmaking/controller/MatchmakingService.java:227-239 | an assigned player whose server is no longer stored is answered from the server copy its record holds, nothing changes, and the poll never fails there; every other poll is the model's poll |
| AsWritten.ServerSweptUnderJoinedPlayer | src/main/java/de/opengamebackend/matchmaking/controller/MatchmakingService.java:242-283 | a poll by a waiting player deletes the expired server a joined player is on and answers SERVERS_FULL, leaving that player's record pointing at it |
| AsWritten.DanglingPollAnswersHeldCopy | src/main/java/de/opengamebackend/matchmaking/controller/MatchmakingService.java:227-239 | that joined player's next poll sends it to the deleted server as written, where the model reports the dangling reference |

## Findings

| source | as written | input that shows it | evidently intended | confidence | as-written member | corrected member |
|---|---|---|---|---|---|---|
| src/main/java/de/opengamebackend/matchmaking/controller/MatchmakingService.java:104-112 | a server created for an endpoint no server uses has no membership list (GameServer.java:24 never initialises it), so clearing the list fails | register ("1.0", "GM", "EU", "1.2.3.4", 8888, capacity 2) into an empty service | the server is stored OPEN with an empty list, as MatchmakingServiceTests.java:160-184 expects | not executed; high, since the field has no initialiser and the request carries no list | AsWritten.RegisterAsWritten, AsWritten.FirstRegistrationFails | ServerLifecycle.Register |
| src/main/java/de/opengamebackend/matchmaking/controller/MatchmakingService.java:250-262 | the player sweep saves each expired player's server after taking the player off its list (:407-409), which stores again a server deleted at :250; the selection at :262 then finds it | server s: heartbeat 0, OPEN, capacity 2, listing p1; p1 MATCHED on s at time 0; p2 QUEUED with the same filters; p2 polls at time 200 | expired servers stay deleted and p2 is told SERVERS_FULL | not executed; medium, since it reads the repositories as stores of records, and with a database foreign key the delete at :250 would fail instead | AsWritten.SweepAsWritten, AsWritten.ExpiredServerResurrected | Allocation.Sweep, Allocation.PollNeverAllocatesExpiredServer |
| src/main/java/de/opengamebackend/matchmaking/controller/MatchmakingService.java:184-186 | enqueue saves the server the player's record refers to even after that server was deregistered | s1 lists p1, MATCHED on s1; deregister s1; register the same endpoint as s2; enqueue p1 | a deregistered server stays deleted and endpoints stay unique | not executed; medium, for the same reading of the repositories | AsWritten.DetachAsWritten, AsWritten.ReEnqueueDuplicatesEndpoint | Queue.Detach, Queue.DetachPreservesWf |

## Left out

- Spring wiring and the HTTP controllers are left out. So are the repositories' persistence and the ModelMapper copying. Each operation is one pure state transition.
- The clock, UUID generation and the store's enumeration order are left out as sources of behaviour. They appear as the parameters `now`, `freshId` and `scan`.
- Concurrency is left out. Operations are atomic, and interleavings of concurrent requests are not modelled.
- Timestamps are whole seconds. Servers are stamped with the service's local time and players with offset time, and that mismatch is not modelled.
- Object identity is left out. A membership list holds player ids, not player objects.
  - A server may therefore list an id whose record has been deleted, and the model keeps that.
  - The model does not recreate records that the persistence layer might re-save from detached copies of deleted players.
- Response fields copied wholesale from the records (the listings' DTOs) are modelled as the records themselves.
- Plain getters and setters of `GameServer` and `Player` are not modelled separately. Their fields are the datatypes' fields.
- The ticket field is never written by any operation here. It is carried through unchanged, and enqueue keeps it.
- ServerLifecycle.Register: a first registration succeeds with an empty list, as the tests expect. The code as written fails there (see Findings).
- Scenarios.RegisterFirstServer: runs the corrected registration; the code as written fails on this input.
- Allocation.ExpirePlayers: a server deleted by the server sweep of the same poll stays deleted, the corrected behaviour (see Findings). A server deleted by an earlier request, which the code would also save back, stays deleted as well, because the model keeps no record of it.
- Allocation.Sweep: same as Allocation.ExpirePlayers; the sweeps as written are AsWritten.SweepAsWritten.
- Allocation.PollMatchmaking: an assigned player whose server has been deleted gets `DanglingServerReference`, while the code answers from the server copy the player's record holds (AsWritten.PollAsWritten), because a record here holds only the server's id.
- Allocation.PollMatchmaking: allocates from the corrected sweeps, so on the Findings input it answers SERVERS_FULL where the code as written allocates to the expired server.
- Queue.Detach: when the player's server is no longer stored, the store is left as is, the corrected behaviour; the code saves back the copy the player refers to (AsWritten.DetachAsWritten).
- Queue.Enqueue: detaches with the corrected Queue.Detach.
- Notifications.RemovePlayer: when `home` names a server that is no longer stored, the store is left as is, whereas the code's save would store the player's in-memory copy of it again. The one caller, NotifyPlayerLeft, always passes a stored server.
- Queue.DetachPreservesWf: unique endpoints hold for the corrected detachment only; AsWritten.ReEnqueueDuplicatesEndpoint breaks them as written.
- Queue.EnqueuePreservesWf: holds for the corrected detachment only, as for Queue.DetachPreservesWf.
- Allocation.ExpirePlayersPreservesWf: holds for the corrected player sweep, which saves no deleted server back.
- Allocation.SweepPreservesWf: holds for the corrected sweeps only.
- Allocation.PollPreservesWf: holds for the poll over the corrected sweeps only.
- Notifications.RemovePlayerPreservesWf: holds because a server that is no longer stored is not saved back.
- ServerLifecycle.SetStatus: a request without a status is not modelled, since `ServerStatus` has only OPEN and CLOSED. The code stores that null status without a check and echoes it back (:396-399). Such a server then fails the OPEN test of the candidate filter (:266), so it is never allocated, just as a CLOSED one.
- Notifications.NotifyPlayerJoined: updates the player's current record. The code updates and saves the player object it finds in the server's list. If that entry is a stale copy of a player that was dequeued and enqueued again, the code writes the stale copy back (JOINED, still on the server, with its old matched time), and the model does not.
- Properties.ReRegisterOrphansPlayers: the drift it shows is between the in-memory list and the back-reference. Membership lists here follow the objects of one request, not the mapped relation the database keeps (GameServer.java:23). The database relation would clear only when the players' back-references change.
