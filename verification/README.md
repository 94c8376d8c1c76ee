# A verified model of the review-session sync library

The repository keeps the peers of a media review session in step: who may write to each broadcast channel, who
hosts, what structure everyone holds, and how a late joiner or a diverged peer catches up. Two tools record such a
session, play it back, and turn it into an editorial timeline. This project models those three parts in Dafny and
proves what they keep.

- **Session protocol.** `Basics`, `Authority`, `Leases`, `LeaseTimes`, `ClaimOrders`, `VisibilitySession`, `HostElection`,
  `PlaybackMessage`, `Manager`, `Recovery`, `RecoveryRuns`, `RecoveryTriggers`. A lease record is a class whose methods are specified by
  one function per operation; the lemmas then speak about all runs of one record, all sessions of any number of
  peers, and all peer tables.
- **Structure.** `Walking`, `Patcher`, `Snapshots`, `Joining`, `JoinerGraph`, `Acts`, `CatchUp`, `Annotations`,
  `Timelines`, `Coalesce`. The GUID index over the object graph, edited locally and by patches; buffering, the rebuild from a
  snapshot and the replay, and how a joiner's index then relates to the sender's; annotation tracks with many
  writers; sequence and clip timelines sharing GUIDs; backlog coalescing.
- **Recordings.** `FrameResolution`, `Emitter`, `ClipPlayback`, `Overlay`, `Player`, `PlayerRuns`, `PlayerGate`,
  `PlayerEnds`, `Recorder`, `RecorderRuns`.
  Chunked playback against frame-by-frame playback, the overlay track, and the two timed state machines.

A GUID is an integer: the protocol only compares GUIDs, for equality and in one order. Clock readings, the messages
waiting and the outcome of host callbacks are parameters. Code that raises returns a flag that says so.

`dafny verify dfyconfig.toml` checks the project.

## Where the code differs from what it says

The code is modelled as it is. In these places it does not do what its own text promises; the lemma gives the exact
condition, or an input.

- A fold of claims is said to reach one winner in any order (python/otio_sync_core/authority.py:433-445). An owner's
  re-claim overwrites its stamp unconditionally, so for given claims all orders end alike exactly when the author of
  the best claim makes no claim with another stamp (`Leases.OrderIrrelevantIff`); naming the best claim after every
  single arrival is more, and has its own condition (`Leases.FoldTracksBestIff`). Where each sender's own order is
  kept, less is enough (`ClaimOrders.InterleavingIrrelevantIff`).
- A visibility claim against a lease adopted from a snapshot negates a missing stamp and raises
  (`Leases.ClaimUndefinedIff`).
- An insert indexes the inserted child but not what it contains, so a later move inside it reaches no other peer
  (`Patcher.MoveInsideInsertedSubtreeIsLost`). `Patcher.PatchRepeatsEditIff` lists every case of this kind.
- A drawing without commands is merged by its sender but becomes a second clip on receivers
  (`Annotations.DuplicateIff`).
- Removing a clip timeline by itself takes the clip out of the index, a cascade can leave the active timeline
  dangling, and a replaced clip timeline displaces the sequence's own clip (`Timelines.RemovalKeepsIndexIff`,
  `Timelines.ActiveDanglesIff`, `Timelines.ReplacingClipTimelineIff`).
- Coalescing keeps the last playback message even when that one does nothing on arrival
  (`Coalesce.CoalescingPreservesIff`). Both transports drop a peer's own messages first
  (python/otio_sync_core/network.py:118, python/otio_sync_core/rabbitmq_network.py:185), so the case that can arrive
  is an event of the schema that this version does not know (`Coalesce.UnknownLastLosesTheView`). The active timeline
  can be lost as well, exactly as `Coalesce.ActiveTimelineKeptIff` says.
- The chunked emitter agrees with frame-by-frame playback from every playhead that is not negative; from a negative
  one it agrees, where nothing raises, only for at most one frame (`Emitter.PlayRuns`).
- The player's delay after a snapshot is said to be waited out (sync_recorder/player.py:234-243). Any message from
  another peer handled at the last answered request or after it ends the wait, usually the request itself
  (`PlayerGate.ClockStartsEarlyIff`). A start does not end a pause (`PlayerRuns.StartingWhilePausedLags`). Waiting for
  peers with none required raises until somebody asks (`PlayerEnds.TickRaisesIff`).
- A recovery is said never to eject a peer from its session (python/otio_sync_core/manager.py:2463-2468), and it does
  not. What does is a request to join made while in the session: by the host application
  (`RecoveryRuns.AskingToJoinEjects`), or by one tick of a peer that was searching and drains a late snapshot with a
  master's answer behind it, because the whole batch is handled before any of its actions is performed
  (`RecoveryRuns.LateSnapshotEjects`). `RecoveryRuns.EjectsIff` is exact; a peer that is synced between two ticks is
  ejected by no batch (`RecoveryRuns.NeverEjected`).

## Model

| member | source | states |
|---|---|---|
| Leases.OwnershipLease.SettleExpiry | python/otio_sync_core/manager.py:2045-2074 | an expired lease goes to its queued claimant, or becomes free; a live one is untouched |
| Leases.OwnershipLease.Vacate | python/otio_sync_core/manager.py:2274-2294 | a vacated lease is granted, unconfirmed, to the queued claimant, else cleared whole |
| Leases.OwnershipLease.ApplyClaim | python/otio_sync_core/manager.py:2112-2164 | the whole new record a claim leaves: re-claim, queueing behind a confirmed owner, resolution, and the undefined comparison |
| Leases.OwnershipLease.RefreshConfirmed | python/otio_sync_core/manager.py:2095-2110 | a broadcast by the owner confirms the lease and moves its deadline, nothing else; how long it then lasts is in `LeaseTimes.LeaseLasts` |
| Leases.OwnershipLease.Adopt | python/otio_sync_core/manager.py:2354-2389 | a snapshot's entry is adopted as a confirmed lease without a stamp, unless this peer itself holds a live one |
| Leases.OwnershipLease.ReleasePeer | python/otio_sync_core/manager.py:2420-2448 | a departing peer loses its queued claim and its lease, which then settles as if expired |
| Leases.RecordInvariant | python/otio_sync_core/manager.py:2045-2448 | in every state reachable by claims, confirmation, release, expiry, adoption and departure: no owner iff no deadline; no owner means no stamp, no confirmation, no queue; a queued claimant waits behind a confirmed other owner; visibility never queues |
| Leases.DroppedPeerIsGone | python/otio_sync_core/manager.py:2420-2448 | after a departure no reachable lease names the peer as owner or as claimant |
| Leases.ClaimUndefinedIff | python/otio_sync_core/authority.py:424-457 | over all reachable leases, a claim cannot be compared exactly when it is a visibility claim against another peer's live adopted lease |
| Leases.ClaimUndefinedExample | python/otio_sync_core/manager.py:2354-2389 | that state is reached by one snapshot adoption |
| Leases.BestIsBest | python/otio_sync_core/authority.py:406-457 | the reference winner of a batch is a claim of the batch that no other claim of it beats |
| Leases.FoldTracksBestIff | python/otio_sync_core/manager.py:2130-2164 | from a free lease, the lease names the best claim after every single arrival iff the leading claimant never re-claims with a worse claim |
| Leases.OneClaimPerPeerTracks | python/otio_sync_core/manager.py:2130-2164 | with one claim per peer the fold ends on the best claim, on every channel |
| Leases.ArrivalOrderIrrelevant | python/otio_sync_core/authority.py:406-457 | two arrival orders of one claim per peer end with the same owner and stamp, the least claim of the channel's order |
| Leases.OrderIrrelevantIff | python/otio_sync_core/authority.py:424-457 | for any claims on any channel: all orders of them end with one owner and stamp, the best claim's, iff the author of the best claim makes no claim with another stamp |
| Leases.LateReclaimSplitsOrders | python/otio_sync_core/manager.py:2130-2137 | whenever that author does, two orders that end differently |
| ClaimOrders.FoldMeetsAll | python/otio_sync_core/manager.py:2130-2164 | folding arrivals into a free lease that lasts is claim-by-claim replacement and take-over |
| ClaimOrders.InterleavingIrrelevantIff | python/otio_sync_core/authority.py:406-418 | where the earlier claim wins and no sender's stamps run back: all interleavings that keep each sender's order end alike, on that claim, iff the last claim of the best claim's author beats every claim of everybody else |
| Leases.ReclaimMakesOrderMatter | python/otio_sync_core/manager.py:2132-2137 | an owner's re-claim on an earlier-wins channel makes two orders of the same claims end differently |
| Leases.QueuedBestIsBest | python/otio_sync_core/manager.py:2141-2150 | the reference for the queue: a foreign claim that no other queued or arriving foreign claim beats |
| Leases.ConfirmedOwnerIsNeverPreempted | python/otio_sync_core/manager.py:2141-2150 | no sequence of claims on an earlier-wins channel moves a confirmed live lease, and the one waiting is the least foreign claim so far |
| Leases.WaitingClaimIsGranted | python/otio_sync_core/manager.py:2056-2074 | release, departure and expiry grant exactly that waiting claim, or free the lease when nobody waits |
| LeaseTimes.LeaseLasts | python/otio_sync_core/manager.py:2045-2175 | over every run: after a claim that takes or reaffirms the lease, a grant or an owner's broadcast, and with nothing but consultations behind it, the owner passes the gate for 0.5 s (display), 1 s (position), 2 s (structure) or 3 s (visibility) and not from then on; then the claimant who waited passes for as long, or nobody |
| LeaseTimes.BroadcastHoldsOff | python/otio_sync_core/manager.py:2095-2150 | over every run, until an owner's broadcast expires a foreign claim on an earlier-wins channel, however early, only waits, unless an earlier one waits already |
| LeaseTimes.ProvisionalOwnerYieldsIff | python/otio_sync_core/manager.py:2147-2164 | an owner that has not broadcast yields exactly to an earlier claim, on visibility to a later one, and on a tie to the lower GUID |
| LeaseTimes.FirstClaimSettles | python/otio_sync_core/authority.py:406-457 | one claim per peer in any order: the lease ends with the claim of the earliest stamp, on visibility the latest, and among equal stamps of the lowest GUID |
| LeaseTimes.RolesThatClaim | python/otio_sync_core/authority.py:631-640 | a free lease is taken by a driver on every channel, by a reviewer on position and display, by a viewer on display, and by nobody else |
| VisibilitySession.WithheldOrTaken | python/otio_sync_core/authority.py:500-543 | with stamps present a permitted local claim is withheld iff another peer's claim is under 1.5 s old, and otherwise takes the lease |
| VisibilitySession.HoldoffResistsAnyRun | python/otio_sync_core/manager.py:2225-2251 | no run of local claims inside the hold-off changes the lease or sends anything |
| VisibilitySession.OneMoreClaimNamesBest | python/otio_sync_core/manager.py:2112-2164 | applying the next claim of any sender leaves a peer naming the best claim it has applied |
| VisibilitySession.InvariantHolds | python/otio_sync_core/manager.py:2112-2164 | the session invariant of every peer holds in every state of every run of local claims and deliveries |
| VisibilitySession.EveryPeerNamesBestApplied | python/otio_sync_core/authority.py:424-457 | at every moment of every run each peer's owner and stamp are the latest-stamp, lowest-GUID claim among those it has applied |
| VisibilitySession.VisibilityConverges | python/otio_sync_core/manager.py:2296-2302 | once all claims are delivered any two peers name one owner and stamp, and exactly that owner passes the broadcast gate |
| VisibilitySession.BackwardClockDiverges | python/otio_sync_core/manager.py:2132-2137 | with a holder's stamp running back, two delivery orders end with different owners |
| Manager.SyncManager.OwnsChannel | python/otio_sync_core/manager.py:2076-2093 | settles that one lease and answers whether this peer is then its owner |
| Manager.SyncManager.ClaimCategory | python/otio_sync_core/manager.py:2177-2251 | the new lease, what is sent and what raises; nothing is claimed on a channel the role forbids |
| Manager.SyncManager.ReleaseCategory | python/otio_sync_core/manager.py:2253-2272 | only the holder releases, and then says so; other leases keep their value |
| Manager.SyncManager.HandleClaimOwnership | python/otio_sync_core/manager.py:2296-2302 | a complete received claim is resolved like a local one; an incomplete one changes nothing |
| Manager.SyncManager.HandleReleaseOwnership | python/otio_sync_core/manager.py:2304-2315 | a release counts only from the current owner |
| Manager.SyncManager.LeaseWireSection | python/otio_sync_core/manager.py:2317-2339 | the section equals the one the record values define, channel by channel in table order |
| Manager.SectionLists | python/otio_sync_core/manager.py:2317-2339 | the section lists each held channel once with its owner and time left, and no other channel |
| Manager.SyncManager.AdoptOwnership | python/otio_sync_core/manager.py:2354-2389 | each listed channel is adopted, in section order |
| Manager.OwnershipRoundTrip | python/otio_sync_core/manager.py:2317-2389 | a joiner that holds nothing learns from the section exactly who holds each lease and for how much longer, whatever the two clocks read |
| Manager.SyncManager.ReleasePeerLeases | python/otio_sync_core/manager.py:2420-2448 | every lease is what the departure of that peer leaves of it |
| Manager.SyncManager.ElectHost | python/otio_sync_core/manager.py:1499-1563 | the host seat is the election's result and this peer's flag says whether that is itself |
| Manager.SyncManager.AdoptHost | python/otio_sync_core/manager.py:1661-1686 | a snapshot's host is taken over, and one without a host clears nothing |
| Manager.SyncManager.HandlePeerAnnounce | python/otio_sync_core/manager.py:3717-3757 | an announcement rewrites one entry: application and capability as announced, a role nobody knows becomes driver, an undeclared one stays what it was; every other entry stays, and the host is re-elected |
| Manager.SyncManager.AdoptPeers | python/otio_sync_core/manager.py:1596-1659 | the roster is merged without an election |
| Manager.SyncManager.LearnMaster | python/otio_sync_core/manager.py:3674-3715 | a master that drives declines exactly a claimant that does not, and answers; otherwise learning another master re-runs the election and learning the same one does not |
| Manager.SyncManager.DropPeer | python/otio_sync_core/manager.py:2391-2418 | a known peer leaves table, seat and every lease; a stranger changes nothing |
| Manager.SyncManager.ElectRoleToDriver | python/otio_sync_core/manager.py:1866-1905 | self-elevation is refused exactly when somebody may host as a driver; when granted the role, the own entry, the announcement and the election request are all stated |
| Manager.SyncManager.DrainHostElections | python/otio_sync_core/manager.py:4138-4158 | queued requests run one election |
| Manager.SyncManager.EmitPlayback | python/otio_sync_core/manager.py:2773-2946 | what is sent equals the three passes over the gates' answers, with the leases before and after |
| Manager.SyncManager.BroadcastPlaybackState | python/otio_sync_core/manager.py:2886-2946 | nothing while applying a remote message; else the passes decide payload, status, stored state and the position lease, and no forbidden channel is confirmed; what goes out is stamped, names the timeline given or else the active one, and carries each field group by role and lease |
| Manager.CompletedSpeaks | python/otio_sync_core/manager.py:2886-2946 | a message that goes out, field by field: time, timeline, what is on screen only from a driver who may say so, the position only from a driver or reviewer who holds it, unknown fields as given |
| Manager.SyncManager.BroadcastDisplayState | python/otio_sync_core/manager.py:2982-3023 | sent and stored, with its stamp, iff no remote message is being applied and this peer holds the display lease, which only then is confirmed |
| Manager.SyncManager.BroadcastStructure | python/otio_sync_core/manager.py:955-1056 | per kind of structural broadcast: sent iff session status, syncing flag, role, lease and the local change all allow it; when its refusal marks a divergence; no forbidden channel is confirmed |
| HostElection.HostIsLeastStanding | python/otio_sync_core/authority.py:209-269 | the host is an eligible peer that no other eligible peer precedes by (application rank, not master, GUID); there is one iff an eligible driver exists |
| HostElection.HostIsAhead | python/otio_sync_core/authority.py:209-269 | an entry is host iff it can host and drives, and is ahead of every other such entry: XStudio before OpenRV before the rest, then the master, then the lower GUID |
| HostElection.ElectionIgnoresTableOrder | python/otio_sync_core/authority.py:249-269 | tables listing the same peers in any order elect the same host |
| HostElection.NewcomerUnseatsMasterIff | python/otio_sync_core/authority.py:209-248 | a newcomer unseats an elected master iff it can host, drives, and its application is strictly ahead |
| HostElection.AnnouncementsMeet | python/otio_sync_core/manager.py:3717-3757 | after announcements of distinct peers each entry is the one its own announcement leaves |
| HostElection.AnnouncementOrderIrrelevant | python/otio_sync_core/manager.py:3717-3757 | announcements of distinct peers in any order elect the same host |
| HostElection.RosterOnlyFillsGaps | python/otio_sync_core/manager.py:1596-1659 | a roster adds strangers and fills missing roles; nothing heard first-hand is overwritten |
| PlaybackMessage.RoleStripCounts | python/otio_sync_core/authority.py:722-741 | the role pass keeps what is on screen for drivers and the position for all but viewers, and counting fields tells whether it took one |
| PlaybackMessage.WireAuthority | python/otio_sync_core/manager.py:2773-2946 | in a sent message each of the two field groups travels whole iff role and gate both allow it and otherwise not at all; all other fields are untouched |
| PlaybackMessage.StatusTellsTheTruth | python/otio_sync_core/manager.py:2773-2946 | when nothing is sent, when the status is SENT, and when the position lease is confirmed, each as an iff over role, gates and the fields given |
| Recovery.RecoveryMonitor.StructureRefused | python/otio_sync_core/manager.py:2019-2039 | a refused structural change marks divergence on a synced peer that is not applying a remote message |
| Recovery.RecoveryMonitor.RequestState | python/otio_sync_core/manager.py:2450-2478 | the state a snapshot request leaves, for each reason |
| Recovery.RecoveryMonitor.ApplySnapshot | python/otio_sync_core/manager.py:4328-4382 | the state a snapshot leaves, including when the divergence is forgotten and what the replay finds missing again |
| Recovery.RecoveryMonitor.Handle | python/otio_sync_core/manager.py:3665-3715 | what one handler changes at once, and the action it leaves: a master found only while searching, a snapshot in any status |
| Recovery.RecoveryMonitor.Drain | python/otio_sync_core/manager.py:3949-3973 | the whole batch is handled first, then the actions left are performed in order |
| Recovery.RecoveryMonitor.FireTimers | python/otio_sync_core/manager.py:3975-4093 | promotion on silence, the timeout and the two recovery triggers, in order |
| Recovery.RecoveryMonitor.Tick | python/otio_sync_core/manager.py:3926-4093 | a tick is the batch, then its actions, then the timers |
| RecoveryRuns.EventKeepsFacts | python/otio_sync_core/manager.py:2019-4093 | what a tick with any batch, or a call by the host application, does to flag, deadline, marks and requests; an attempt only after the cooldown; the flag falls only in a tick with a fit recovery snapshot |
| RecoveryRuns.DivergedIffDeadline | python/otio_sync_core/manager.py:2019-2039 | in every reachable state the flag is up iff a settle deadline is set |
| RecoveryRuns.NeverEjected | python/otio_sync_core/manager.py:3926-4040 | over any run and whatever the batches: a peer synced between two ticks is never searching for a master again, unless its host application asks to join anew or starts over |
| RecoveryRuns.EjectsIff | python/otio_sync_core/manager.py:3949-3958 | for every state and event, exactly: some moment is in the session and a later one is not iff the host application asks to join or starts while in it, or the tick was searching and drains a snapshot with a master's answer behind it |
| RecoveryRuns.LeavesOnlyIfEjected | python/otio_sync_core/manager.py:3926-4040 | over all runs, moments in the middle of ticks included, whoever is in the session and later is not went through such an event in between |
| RecoveryRuns.LateSnapshotEjects | python/otio_sync_core/manager.py:3713-3714 | that batch: a late snapshot and an answer make a searching peer synced for a moment and asking again, and unanswered it is searching without a master |
| RecoveryRuns.AskingToJoinEjects | python/otio_sync_core/manager.py:2450-2478 | asking to join while synced, and getting no answer, drops the master and returns to the search |
| RecoveryRuns.RecoveryTimeoutKeepsSession | python/otio_sync_core/manager.py:3997-4040 | an unanswered recovery request keeps master, membership and the divergence, and is reported |
| RecoveryRuns.AttemptsAreApart | python/otio_sync_core/manager.py:4042-4091 | any two recovery attempts, through either trigger, are at least the cooldown apart |
| RecoveryRuns.DivergenceFallsOnlyOnRecovery | python/otio_sync_core/manager.py:4357-4371 | a divergence is forgotten only by a snapshot, after a recovery request sent no earlier than every refusal so far |
| RecoveryRuns.SnapshotForgetsIff | python/otio_sync_core/manager.py:4357-4371 | a snapshot forgets the divergence iff it answers a recovery request no older than the last refusal |
| RecoveryRuns.SettledDivergenceIsActedOn | python/otio_sync_core/manager.py:4042-4062 | a settled divergence on a synced, cooled-down peer is asked about by the next tick |
| RecoveryTriggers.MissIsActedOn | python/otio_sync_core/manager.py:4063-4091 | over every run: a target first missed at t, not brought since, with no snapshot applied and fewer than ten others missed behind it: every tick from t + 0.5 s on of a synced peer, with no attempt in the last 5 s and another as master, asks that master for the state; further misses of it change nothing |
| RecoveryTriggers.ActsOnlyOnAMiss | python/otio_sync_core/manager.py:4063-4091 | and only then: a synced peer that has not diverged asks, or says that there is nobody to ask, only after 5 s of rest and for something missed half a second ago or earlier that is still not held |
| RecoveryTriggers.NewestTenRemain | python/otio_sync_core/patcher.py:96-99 | of the targets missed in a batch, behind those already waiting, the last ten remain, in order |
| RecoveryTriggers.TargetsStayFew | python/otio_sync_core/patcher.py:96-99 | in every reachable state at most ten targets wait, each once |
| RecoveryTriggers.AttemptsAreTold | python/otio_sync_core/manager.py:4042-4091 | what keeps a peer from attempting again is an attempt that sent a request or said that there is nobody to ask |
| RecoveryTriggers.RefusalIsActedOn | python/otio_sync_core/manager.py:4042-4062 | over every run: half a second after the last refusal or later, with no snapshot in between, every tick of a synced, rested peer with another as master asks that master |
| RecoveryTriggers.SilentMasterIsReplacedIff | python/otio_sync_core/manager.py:3978-3988 | over every run: after somebody asked for the master and nobody has asked again or answered, a tick makes a synced peer master iff more than two seconds have passed |
| RecoveryTriggers.UnansweredRequestEndsIff | python/otio_sync_core/manager.py:3997-4023 | over every run: a request waits for five seconds, in which no tick does anything about it; the first tick behind that gives up, a recovery keeping its master and a join searching anew |
| Patcher.OTIOPatcher.InsertChild | python/otio_sync_core/patcher.py:305-338 | the index after a local insert, and whether it is broadcast |
| Patcher.OTIOPatcher.RemoveChild | python/otio_sync_core/patcher.py:340-369 | the index after a local removal, and whether it is broadcast |
| Patcher.OTIOPatcher.MoveChild | python/otio_sync_core/patcher.py:371-403 | the index after a local move, and whether it is broadcast |
| Patcher.InsertLists | python/otio_sync_core/patcher.py:305-338 | where an insert lands: -1 and past the end append, other negative positions count from the end; the object is indexed as it came and nothing else changes |
| Patcher.RemoveLists | python/otio_sync_core/patcher.py:340-369 | a removal takes the first child with the GUID out of the list and the GUID out of the index, and does something iff there is one |
| Patcher.MoveLists | python/otio_sync_core/patcher.py:371-403 | a move takes the first child with the GUID out and puts it at the position in the list without it, and does something iff it is there and elsewhere |
| Patcher.TryMergeAnnotation | python/otio_sync_core/patcher.py:249-269 | a delta merges iff the track has a clip for its key and it carries commands; then that clip alone gains them |
| Patcher.OTIOPatcher.ApplyInsert | python/otio_sync_core/patcher.py:489-508 | a received insert merges, inserts or is recorded as unresolved |
| Patcher.OTIOPatcher.ApplyMove | python/otio_sync_core/patcher.py:442-465 | a received move needs parent and child in the index, and takes the indexed object |
| Patcher.OTIOPatcher.ApplyRemove | python/otio_sync_core/patcher.py:467-482 | a received removal drops the first listed child with the GUID |
| Patcher.OTIOPatcher.ApplyPatch | python/otio_sync_core/patcher.py:405-511 | the index after any patch, and whether it was recorded as unresolved |
| Patcher.PatchRepeatsEditIff | python/otio_sync_core/patcher.py:305-508 | for every graph and edit: the receiver ends like the sender iff the edit is not a merging plain insert, a move of a child that is not indexed as listed, or a delta without commands |
| Patcher.CarefulEditsAgree | python/otio_sync_core/patcher.py:305-508 | edits that insert new childless objects keep the graph sound, and every peer repeats them exactly |
| Patcher.CarefulRunsAgree | python/otio_sync_core/patcher.py:305-508 | whole runs of such edits are repeated exactly |
| Patcher.AgreeingRunsMatch | python/otio_sync_core/patcher.py:405-508 | applying the messages of a run of agreeing edits rebuilds the sender's graph |
| Patcher.MoveInsideInsertedSubtreeIsLost | python/otio_sync_core/patcher.py:442-451 | an insert indexes only the child itself, so moving one of its children is lost on the way |
| Joining.SessionJoin.ApplyPatch | python/otio_sync_core/manager.py:3544-3604 | own messages are dropped; while joining everything but session messages is buffered; otherwise a patch or an announced timeline is applied |
| Joining.SessionJoin.HandleAddTimeline | python/otio_sync_core/manager.py:3842-3874 | a new timeline's objects are mapped into the index and it is registered; a known one changes nothing |
| Joining.SessionJoin.ReplayBuffer | python/otio_sync_core/manager.py:4342-4352 | each buffered patch and announced timeline newer than the snapshot is applied once and in order, and none is buffered again |
| Joining.SessionJoin.ApplySnapshot | python/otio_sync_core/manager.py:4245-4382 | index and timelines are those rebuilt from the snapshot, with the newer messages run over them; the buffer ends empty and the peer synced |
| Snapshots.BuildTree | python/otio_sync_core/patcher.py:172-189 | a deserialised tree has one fresh node per object the walk meets, in its order, each saying what the tree says |
| Snapshots.RebuildIndex | python/otio_sync_core/manager.py:4271-4294 | the index built from fresh nodes is the graph that sequences-first mapping of the timelines defines |
| Snapshots.RebuiltHolds | python/otio_sync_core/manager.py:4276-4293 | the rebuilt index knows every object carried, and each of its entries is one that some timeline carries |
| JoinerGraph.RebuildInStep | python/otio_sync_core/manager.py:4271-4294 | a joiner rebuilding the sender's own trees is in step with the sender, whatever else the sender's index holds |
| JoinerGraph.RebuildRestrictsIff | python/otio_sync_core/manager.py:4271-4294 | its index is a closed part of the sender's iff the sender's holds the trees and nothing outside them lists an object inside |
| JoinerGraph.SoundSnapshotRestricts | python/otio_sync_core/manager.py:4271-4294 | the rebuild of a sound sender's snapshot is exactly the part of its index that unlisted roots reach |
| JoinerGraph.SoundRootHasTree | python/otio_sync_core/manager.py:2480-2512 | every unlisted root of a sound graph has a tree that the snapshot can carry |
| JoinerGraph.EditKeepsInStep | python/otio_sync_core/patcher.py:305-508 | one edit of the sender and its patch keep the joiner in step, whether or not the joiner knows the parent |
| JoinerGraph.CarefulEditKeepsRestricts | python/otio_sync_core/patcher.py:305-508 | a careful edit keeps the joiner's index the reached part of the sender's; a patch to an object outside it is recorded as unresolved and changes nothing |
| JoinerGraph.CarefulRunKeepsRestricts | python/otio_sync_core/patcher.py:305-508 | the same over whole runs, and no root is lost |
| JoinerGraph.TreesAreAlike | python/otio_sync_core/patcher.py:405-508 | being in step, every path from a root leads both peers to the same object with the same child list |
| Acts.NewsRepeatsActIff | python/otio_sync_core/manager.py:3842-3874 | for every structure and act, edits and new timelines: the news of it does the same to a peer with that structure iff the edit is one that agrees |
| Acts.ActKeepsInStep | python/otio_sync_core/manager.py:852-907 | an act and its news keep a joiner in step, timelines announced over shared clip GUIDs included |
| Acts.FreshRunsFit | python/otio_sync_core/manager.py:788-850 | runs that bring only unused GUIDs, but for known objects shared as they are, fit every joiner in step and take no unlisted root away |
| CatchUp.FilterCuts | python/otio_sync_core/manager.py:4223-4243 | filtering an ordered stream by stamp keeps exactly the acts the snapshot does not hold |
| CatchUp.NewerIsTheRest | python/otio_sync_core/manager.py:4223-4243 | the same for a buffer with leftovers of an unanswered recovery in front |
| CatchUp.JoinerCatchesUp | python/otio_sync_core/manager.py:4245-4354 | for any history of edits and announced timelines, snapshot stamp, overlapping buffer and leftovers: from what is rebuilt out of the snapshot the joiner ends with the sender's timelines registered and its trees the sender's |
| CatchUp.FreshJoinerCatchesUp | python/otio_sync_core/manager.py:4245-4354 | with conditions on the sender's acts alone, in sessions with clip timelines too: the same, and no unlisted root is lost |
| CatchUp.CarefulJoinerCatchesUp | python/otio_sync_core/manager.py:4245-4354 | for a sound sender that only edits, with care: the joiner ends with exactly the part of the sender's index that its trees reach, every root included |
| CatchUp.UnstampedNeverReplays | python/otio_sync_core/manager.py:4223-4243 | a message without a stamp adds nothing to the replay |
| Annotations.AnnotationTrackEnd | python/otio_sync_core/manager.py:3025-3041 | the sum of the durations on the track |
| Annotations.FindAnnotationClipAt | python/otio_sync_core/manager.py:3043-3064 | the first drawing for the key |
| Annotations.AnnotationTrack.AddAnnotation | python/otio_sync_core/manager.py:3336-3374 | a first drawing comes last, behind what was there and at most one gap, its start the later of the old end and its own frame, and what is appended is what is sent; a later one goes behind the commands of the first with its key and is sent alone; a receiver with the same track ends with the sender's iff the drawing is the first for its key or has commands |
| Annotations.CommitPlaces | python/otio_sync_core/manager.py:3345-3374 | where a drawing goes and what is sent, for every track |
| Annotations.ReceiverFollowsIff | python/otio_sync_core/manager.py:3345-3374 | for every track: taking in what is sent, in order, gives the sender's track iff the drawing is the first for its key or has commands |
| Annotations.AnnotationTrack.ApplyInsert | python/otio_sync_core/patcher.py:489-508 | the receiver's track after an insert message |
| Annotations.CommitAdds | python/otio_sync_core/manager.py:3340-3375 | committing adds the commands to the one drawing of their key, and to no other key |
| Annotations.ReceiveAdds | python/otio_sync_core/patcher.py:249-269 | receiving does the same, except that a drawing without commands always becomes another clip |
| Annotations.DuplicateIff | python/otio_sync_core/patcher.py:249-269 | an arriving drawing leaves two clips for a key iff it has no commands and the key already has one |
| Annotations.ReplicaHoldsTheUnion | python/otio_sync_core/manager.py:3284-3375 | on every replica, for any run of local and remote additions with commands: at most one clip per key, holding the multiset union of all commands added for it |
| Annotations.ReplicasConverge | python/otio_sync_core/manager.py:3284-3375 | replicas that take in the same additions in any orders hold the same clips and commands for every key |
| Annotations.AnnouncedIsTheAddition | python/otio_sync_core/manager.py:3344-3375 | what a sender announces adds to a receiver exactly what the sender committed |
| Annotations.ReceiptIsThePatch | python/otio_sync_core/patcher.py:232-269 | the merge on receipt is the patcher's: same test, same place in the list |
| Walking.WalkMeetsTheTree | python/otio_sync_core/patcher.py:177-186 | the walk yields an object iff some path of child indices leads to it |
| Walking.MapAllTakesOver | python/otio_sync_core/patcher.py:172-189 | every GUID met is taken over by an object met with it, and no other entry changes |
| Walking.MapPreserveYields | python/otio_sync_core/patcher.py:191-215 | entries there are stay, and only new GUIDs are taken |
| Timelines.GuidsAreWithin | python/otio_sync_core/manager.py:1069-1097 | a timeline's GUIDs are those of the objects some path from its root leads to |
| Timelines.TraverseAndMap | python/otio_sync_core/patcher.py:172-189 | the loop maps the walk's entries over the index, the last occurrence winning |
| Timelines.TraverseAndMapPreserve | python/otio_sync_core/patcher.py:191-215 | the loop maps only what is not indexed yet |
| Timelines.TimelineRegistry.RegisterTimeline | python/otio_sync_core/manager.py:770-786 | a local registration maps the whole timeline and activates it when none is active |
| Timelines.TimelineRegistry.GetOrCreateClipTimeline | python/otio_sync_core/manager.py:788-850 | an existing one is returned; else one is taken in under preserved entries if the GUID is an indexed clip's, and nothing happens if not |
| Timelines.TimelineRegistry.HandleAddTimeline | python/otio_sync_core/manager.py:3842-3874 | a known timeline is ignored; a sequence claims its GUIDs, a clip timeline only free ones |
| Timelines.TimelineRegistry.RebuildFromSnapshot | python/otio_sync_core/manager.py:4271-4294 | the registry is rebuilt from nothing, sequences before clip timelines |
| Timelines.AnnouncementsKeepGood | python/otio_sync_core/manager.py:3842-3874 | after any ADD_TIMELINE messages in any order: all GUIDs indexed, every sequence GUID on a sequence object, every clip-timeline entry registered |
| Timelines.FirstAnnouncementCounts | python/otio_sync_core/manager.py:3842-3874 | of any ADD_TIMELINE messages the first for a timeline that is not held is the one taken in |
| Timelines.AnnouncementsOnlyAdd | python/otio_sync_core/manager.py:3842-3874 | what is held stays as it is, nothing is added that was not announced, and the active timeline stays |
| Timelines.RebuildIsGood | python/otio_sync_core/manager.py:4276-4294 | the same after a rebuild from any dictionary order, with exactly the snapshot's timelines and its active one |
| Timelines.AddingRunsStayGood | python/otio_sync_core/manager.py:770-850 | the same over any run of announcements, local registrations of sequences and lazily made clip timelines |
| Timelines.ClipTimelinesAlwaysHeld | python/otio_sync_core/manager.py:1135-1215 | over any run of all operations, snapshots, removals and replacements included, each clip timeline on record is a registered timeline |
| Timelines.TimelineRegistry.PurgeTimelineState | python/otio_sync_core/manager.py:1135-1151 | one timeline's GUIDs, entry and reverse entries are gone and nothing else is touched |
| Timelines.TimelineRegistry.RemoveTimelineLocal | python/otio_sync_core/manager.py:1153-1186 | removal takes the timeline and its cascade at once, whatever order the cascade is purged in |
| Timelines.RemovalKeepsIndexIff | python/otio_sync_core/manager.py:1153-1186 | after a removal the index is complete iff no remaining timeline shares a removed GUID |
| Timelines.RemovingSequenceKeepsGood | python/otio_sync_core/manager.py:1153-1186 | where sequences share no GUIDs, removing one keeps the registry good and every remaining entry as it was |
| Timelines.SessionsStaySeparate | python/otio_sync_core/manager.py:770-874 | whatever of a session's timelines arrives, is made lazily under a derived GUID or is removed, in any order, sequences stay apart from all but their own clips' timelines |
| Timelines.TameRunsStayGood | python/otio_sync_core/manager.py:770-1186 | over any run of such additions and of sequence removals, the index stays complete and canonical |
| Timelines.RemovingClipTimelineLosesTheClip | python/otio_sync_core/manager.py:1135-1151 | removing a clip timeline alone takes the shared clip GUID out of the index |
| Timelines.ActiveDanglesIff | python/otio_sync_core/manager.py:1180-1181 | the active timeline is left dangling iff it went in the cascade |
| Timelines.TimelineRegistry.ReplaceTimelineLocal | python/otio_sync_core/manager.py:1188-1215 | stale GUIDs go, the new tree is mapped, an active timeline is set when there is none |
| Timelines.ReplacementKeepsIndexIff | python/otio_sync_core/manager.py:1207-1215 | the index stays complete iff no other timeline holds a GUID that was dropped |
| Timelines.ReplacingSequenceKeepsCanonical | python/otio_sync_core/manager.py:1207-1215 | replacing a sequence keeps every sequence GUID on a sequence object |
| Timelines.ReplacingClipTimelineIff | python/otio_sync_core/manager.py:1188-1215 | replacing a clip timeline keeps that iff no sequence shares a GUID with it |
| FrameResolution.ItemAtSpans | python/otio_sync_core/frame_resolution.py:111-133 | the item under a position is the one whose span holds the position, and is found anywhere in that span |
| FrameResolution.AllClipsResolve | python/otio_sync_core/frame_resolution.py:47-63 | on a track of whole clips every position inside resolves |
| FrameResolution.ResolvesIff | python/otio_sync_core/frame_resolution.py:111-133 | for every track of clips and gaps: a view frame resolves to a clip and a media frame iff it lies in that clip's span, as far behind the span's start as the media frame is behind the start of the clip's range |
| FrameResolution.UnknownRangeResolvesNothing | python/otio_sync_core/frame_resolution.py:111-133 | one clip without a known range and nothing in the track resolves |
| Emitter.PlayheadClosedForm | sync_recorder/convert_recording_to_timeline.py:322-364 | frame-by-frame playback counts modulo the length when looping and up to the last frame otherwise |
| Emitter.PlayRuns | sync_recorder/convert_recording_to_timeline.py:322-364 | the chunked loop's segments, expanded, are the frame-by-frame playback; lengths, start and end times, where it is cut and the final playhead included |
| Emitter.ClipPlaybackIsCounted | sync_recorder/convert_recording_to_timeline.py:322-364 | on a track of N frames of clips and up to 100000 frames: step k shows view frame (start + k) mod N or min(start + k, N - 1), the lengths add up, nothing raises |
| ClipPlayback.ClipPlaybackShowsMedia | sync_recorder/convert_recording_to_timeline.py:322-364 | for a sequence of clips, or one clip on its own, and up to 100000 frames: nothing raises, the lengths add up, and frame k, wherever the segments put it, shows the clip and the media frame under view frame (start + k) mod N or min(start + k, N - 1): the clip whose span holds it, that far into its range; each segment starts and ends on time |
| ClipPlayback.CutsAtClips | sync_recorder/convert_recording_to_timeline.py:330-363 | where the playback is cut into segments: each but the last plays its clip to the end; when looping nothing is held, else a segment is a hold iff the view's last frame has been shown before it, and then it is the last |
| ClipPlayback.PictureIsMedia | sync_recorder/convert_recording_to_timeline.py:366-393 | a frozen frame shows the media under its view frame, outside the view under the first or the last |
| Emitter.Converter.EmitPlaying | sync_recorder/convert_recording_to_timeline.py:322-364 | segments are only appended, and the playhead moves only if nothing raised |
| Emitter.Converter.Flush | sync_recorder/convert_recording_to_timeline.py:366-393 | nothing below half a frame; one frozen run while paused; playback since the last flush while playing, timed from there; on an error the flush time stays |
| Overlay.AnnotationsAt | sync_recorder/convert_recording_to_timeline.py:472-482 | nothing where nothing was recorded for the clip's frame, else the entry before the first one that is too late |
| Overlay.ActiveIsNewest | sync_recorder/convert_recording_to_timeline.py:472-482 | with history times in order that is the newest entry not later than the moment, or nothing when all are later |
| Overlay.FrameShowsNewest | sync_recorder/convert_recording_to_timeline.py:665-676 | output frame k shows the newest entry recorded for the clip's media frame (start + k, or start when frozen) not later than startT + (k + 0.5) / fps, and nothing when there is none |
| Overlay.FrameInfos | sync_recorder/convert_recording_to_timeline.py:665-676 | per output frame the media frame and the drawing at the middle of that frame |
| Overlay.GroupFrames | sync_recorder/convert_recording_to_timeline.py:678-691 | the groups flatten back to the frames, and no two neighbours could be merged |
| Overlay.GroupingIsUnique | sync_recorder/convert_recording_to_timeline.py:678-691 | maximal runs of given frames are unique |
| Overlay.OverlaySegment | sync_recorder/convert_recording_to_timeline.py:659-728 | the items lie end to end over the segment; on each of its frames a gap means that nothing is drawn and an image that the drawing there looks like it; an image is the drawing of its own first frame; from item to item the drawing changes |
| Overlay.BackgroundTrack | sync_recorder/convert_recording_to_timeline.py:630-646 | one background clip per segment with frames, in order, frozen unless playing |
| Overlay.OverlayTrack | sync_recorder/convert_recording_to_timeline.py:655-728 | segment by segment the overlay covers exactly the background's frames and shows what is drawn on each |
| Player.SyncPlayer.StartPlayback | sync_recorder/player.py:221-288 | the whole state a start leaves; a pause in progress and the sign of peer activity survive it |
| Player.SyncPlayer.ProcessNetworkRequests | sync_recorder/player.py:478-525 | who was served a snapshot, when, and whether a peer has been heard since |
| Player.SyncPlayer.Tick | sync_recorder/player.py:290-396 | gate, dispatch, loop, drain and end of one tick |
| Player.SyncPlayer.Pause | sync_recorder/player.py:423-433 | a first pause is timed, a second one changes nothing |
| Player.SyncPlayer.Resume | sync_recorder/player.py:435-451 | the clock's start and the drain deadline move by the length of the pause |
| PlayerRuns.ServedIff | sync_recorder/player.py:478-525 | exactly who is served: those a request to this player names, or its source when it names nobody, if there is a snapshot to give |
| PlayerRuns.ClockTracksTimePlayed | sync_recorder/player.py:290-451 | in every run the clock's bookkeeping equals the time between calls not spent paused or before the start |
| PlayerRuns.SentIsAPrefix | sync_recorder/player.py:362-370 | whatever the calls, what was sent is a prefix of the recording, in order, each event once |
| PlayerRuns.EventsAreOnTime | sync_recorder/player.py:359-370 | no event leaves before its offset in played time times the speed, and a dispatching tick leaves nothing due behind |
| PlayerRuns.PauseKeepsThePlace | sync_recorder/player.py:423-451 | through any calls during a pause nothing is sent, and the offset at resume is the offset at pause |
| PlayerRuns.StartingWhilePausedLags | sync_recorder/player.py:255-288 | a start while paused loses exactly the time since the pause began, nothing iff that is zero |
| PlayerRuns.NothingBeforeTheGate | sync_recorder/player.py:316-354 | with the gate on, anything sent means enough peers were served and the clock was armed |
| PlayerRuns.StartBeginsARun | sync_recorder/player.py:221-288 | a start of a player that is not paused begins a run as the run properties take it |
| PlayerEnds.PlaybackEndsIff | sync_recorder/player.py:372-394 | playback ends with the tick that sends the last event if there is no drain window; else it goes on for as long as the window, pauses not counted, and ends with the first tick behind that |
| PlayerEnds.TickRaisesIff | sync_recorder/player.py:316-326 | over any run: a tick raises iff the gate still waits, the player is not paused, no peer at all is required and none has asked |
| PlayerRuns.ActiveIsPlaying | sync_recorder/player.py:290-396 | what a tick answers is whether the player plays on |
| PlayerEnds.LoopSendsOverAndOver | sync_recorder/player.py:362-376 | whatever the calls, a looping player plays on, and what it has sent is the recording over and over, up to the index |
| PlayerEnds.LoopStep | sync_recorder/player.py:362-376 | what a call of a looping player sends goes on from the index and is due, and past the last event the next round begins, its clock starting at the time of that call |
| PlayerEnds.StartBeginsALoop | sync_recorder/player.py:221-288 | a looping start of a player that is not paused begins such a run at the first event |
| PlayerGate.ClockStartsIff | sync_recorder/player.py:316-354 | over any run: the clock starts at the first unpaused armed tick by which enough peers were served and the delay since the last answered request is over or was cut short by another peer's message |
| PlayerGate.ClockStartsEarlyIff | sync_recorder/player.py:319-326 | with only the delay missing, the clock starts early iff a message from another peer was handled at the last answered request or after it |
| PlayerGate.ChatterCutsTheDelay | sync_recorder/player.py:500-525 | a run where a request without a source and any message of another peer start it at once |
| PlayerGate.NothingBeforeTheDelay | sync_recorder/player.py:316-354 | nothing is sent before a tick at which the delay is over or was cut short so |
| PlayerGate.QuietSessionsWaitTheDelay | sync_recorder/player.py:234-243 | where no other peer is heard at or after an answered request, nothing is sent before the delay has passed |
| PlayerRuns.AnsweredRequestEndsDelayIff | sync_recorder/player.py:500-525 | an answered request opens the gate by itself iff its own source is another peer |
| Recorder.SyncRecorder.Tick | sync_recorder/recorder.py:164-270 | what a tick sends and the state it leaves; each message waiting is recorded once, in order, at the tick's offset |
| Recorder.SyncRecorder.DrivePeriodicCapture | sync_recorder/recorder.py:272-311 | timeout, rediscovery and the bounds on a periodic request |
| Recorder.RequestsAreSpaced | sync_recorder/recorder.py:272-311 | over any run with a clock that never runs back: periodic requests are min_interval apart, min_silence after the last message and min_interval after the last snapshot |
| Recorder.OneRequestOutstanding | sync_recorder/recorder.py:280-287 | none is sent while one is outstanding, that is until a snapshot lands or the timeout passes |
| RecorderRuns.AsksEverySecond | sync_recorder/recorder.py:180-195 | over any run: as long as nobody names a master, WHO_IS_MASTER goes out at exactly the ticks more than a second after every earlier one |
| RecorderRuns.MasterIsFound | sync_recorder/recorder.py:180-270 | the first message of a batch that names a master makes a searching recorder ask that one, whatever else the batch holds |
| RecorderRuns.RequestsEveryTwoSeconds | sync_recorder/recorder.py:196-218 | from then on, for four seconds and until it is answered, STATE_REQUEST goes to that master at exactly the ticks more than two seconds after every earlier one; the first tick behind the four seconds gives up and searches |
| RecorderRuns.AnswerIsCaptured | sync_recorder/recorder.py:218-270 | a state snapshot for this recorder ends the handshake, whatever else the batch holds |
| RecorderRuns.CapturedIsQuiet | sync_recorder/recorder.py:180-218 | once the state is captured, and with no periodic capture, nothing is ever sent |
| RecorderRuns.PeriodicSendsIff | sync_recorder/recorder.py:272-311 | exactly when a tick asks the known master for the state and exactly when it looks for a master, with the intervals written out |
| RecorderRuns.LooksEveryInterval | sync_recorder/recorder.py:288-294 | over any run from the start: a recorder that only captures now and then asks for a master, as long as none is named, at exactly the ticks an interval or more after every earlier question |
| RecorderRuns.MasterIsRemembered | sync_recorder/recorder.py:218-270 | the master known after a batch is the last one named in it, else the one known before |
| Coalesce.CoalescePayloads | python/otio_sync_core/manager.py:4170-4205 | the two passes return the batch, or the batch without superseded playback messages |
| Coalesce.CoalescingKeeps | python/otio_sync_core/manager.py:4170-4205 | all other messages stay in order; past the threshold exactly the last playback message stays, at its place; otherwise, and only then, nothing changes |
| Coalesce.CoalescingPreservesIff | python/otio_sync_core/manager.py:3801-3824 | playback state and selected clip end the same from every start state iff nothing was collapsed, or the survivor takes effect, or no message does |
| Coalesce.UnknownLastLosesTheView | python/otio_sync_core/manager.py:4170-4205 | a batch that loses the view state from every start state: a dozen states and, last, a message of the schema with an unknown event |
| Coalesce.LastNamingDecides | python/otio_sync_core/manager.py:3809-3818 | the active timeline a batch leaves is the last one named, or the old one, taken through the structure messages behind it |
| Coalesce.ActiveTimelineKeptIff | python/otio_sync_core/manager.py:3801-3824 | for every peer state and batch the active timeline ends the same iff nothing is collapsed, or nothing names a sequence held on arrival, or the last message that does survives, or the structure messages behind it bring both timelines together |
| Coalesce.ActiveTimelineKeptWhileGrowingIff | python/otio_sync_core/manager.py:3801-3824 | in a batch that removes and replaces no timeline the last alternative is that it names the timeline already active |
| Coalesce.ActiveTimelineKeptWithoutReplacementIff | python/otio_sync_core/manager.py:1153-1186 | in a batch that replaces none it is that the timeline named is the one active without it, or that the messages behind remove both |
| Coalesce.CoalescingMayLoseTheActiveTimeline | python/otio_sync_core/manager.py:3809-3818 | a batch that loses it: one message names another held sequence and a dozen behind it name none |

## Left out

- Patcher.OTIOPatcher.ApplyPatch: property changes and replaced annotation commands are not modelled; they change no child list and no index entry.
- Patcher.OTIOPatcher.InsertChild: every indexed object is taken to be a container; inserting into a leaf, or inserting an object that already has a parent, raises in the OTIO library and is not modelled.
- Patcher.OTIOPatcher.ApplyPatch: counts unresolved patches; which targets are retained, and for how long, is in `Recovery`.
- Joining.SessionJoin.ApplySnapshot: the index is rebuilt here; which timelines are registered, and the fields a snapshot carries besides, are in `Timelines`, `Manager` and `Recovery`.
- CatchUp.JoinerCatchesUp: what is inserted or announced must not join to the joiner's objects what only the sender knows (`Acts.FitsAct`); `CatchUp.FreshJoinerCatchesUp` derives that from the sender's acts.
- CatchUp.JoinerCatchesUp: timelines removed or replaced between snapshot and end of the replay; announcing new ones is covered. Removal and replacement on one peer are in `Timelines`.
- Joining.SessionJoin.ApplyPatch: a buffered or live removal or replacement of a timeline is not a message of this model.
- CatchUp.CarefulJoinerCatchesUp: edits only, and no GUID listed twice, which leaves clip timelines to `CatchUp.FreshJoinerCatchesUp`.
- Coalesce.ActiveTimelineKeptIff: with replacements in the batch its last alternative runs the structure messages for both timelines; a removal followed by a replacement can bring in a third one.
- Annotations.ReplicaHoldsTheUnion: speaks of the commands of a key as a multiset; their order within one clip does depend on arrival order.
- Leases.RecordInvariant: the `ORI_BROADCAST_OWNERSHIP` and the other kill switches are taken to be on.
- Manager.SyncManager.BroadcastStructure: whether the change took hold locally is a parameter; the changes themselves are in `Patcher` and `Timelines`.
- Manager.SyncManager.BroadcastDisplayState: the copy of the display state kept in the root timeline's metadata.
- Timelines.TimelineRegistry.GetOrCreateClipTimeline: takes the clip timeline it would build, and whether the GUID is a clip's, as parameters.
- Emitter.PlayRuns: whole frames of one rate only; fractional playheads and rate conversion are not modelled.
- Overlay.OverlaySegment: rendering, file names and hashes of overlay images.
- Player.SyncPlayer.Tick: one clock reading per call where the source takes several; the blocking `play` and creating or closing an own network are left out.
- PlayerRuns.SentIsAPrefix: runs without a loop; those with one are in `PlayerEnds`.
- Recorder.SyncRecorder.Tick: the thread, the lock and the output file.
- VisibilitySession.VisibilityConverges: no claim across expiry, release, departure, adoption or stamps that run back; `VisibilitySession.BackwardClockDiverges` shows the last is needed.
- Aging out silent peers, heartbeats and role assignment by an administrator: each ends in a modelled operation.
- Annotation and administration roles: those two role groups gate no operation of this model.
- Transports, sockets, threads, JSON and the message classes: messages are datatypes.
- GUID derivation by `uuid5` and GUIDs assigned to objects that have none: every object is taken to carry its GUID.
- Callbacks, logging and log deduplication, viewers, host plugins and rendering.
