# Asli, in Dafny

Asli keeps clipboards in step across a person's own machines: a TypeScript relay that forwards what it
cannot read, and a Rust client on each machine. Several small state machines in it carry promises about
whole runs. This project models them and proves those promises for every input, every run and every
interleaving.

`dafny verify dfyconfig.toml` checks everything. Each module is one file:

| file | what it models |
|---|---|
| `Rooms.dfy`, `RoomRuns.dfy`, `RoomOrder.dfy`, `RetainedClips.dfy` | the relay's rooms: membership, dedup, one retained clip each under a byte budget |
| `Relay.dfy`, `RelayRuns.dfy` | the relay's sessions, from the first connection to the last close, with rooms and addresses |
| `Delivery.dfy`, `Fanout.dfy` | how clips reach one receiver whose socket may be behind, and all of them in one relay |
| `TokenBuckets.dfy`, `Quotas.dfy`, `IpLimits.dfy` | the relay's limits, and the sweepers that forget idle ones |
| `Sequence.dfy` | the client's sequence numbers across crashes |
| `Enroll.dfy`, `EnrollRuns.dfy` | joining by code: one invitation, any number of new devices, an unreliable relay, the local network |
| `ClipboardWriter.dfy`, `WriterRuns.dfy`, `WriterBoards.dfy` | the clipboard writer: batching, and the thread protocol around it |
| `Devices.dfy`, `DeviceEntries.dfy` | the device list, and who is online when nobody says they left |
| `Wayland.dfy`, `WaylandReports.dfy` | offers, sources and selections of the Wayland backend |
| `Base32.dfy` | Crockford base32: the relay's decoder and the client's encoder |
| `ShellLink.dfy`, `ShellLinkLayout.dfy` | reading a Windows shortcut, [MS-SHLLINK] sections 2.1 to 2.5 |
| `Autostart.dfy`, `LaunchAgent.dfy` | the desktop entry and the launch agent that start Asli at login |

Objects the source updates in place are classes here. Every method of theirs is proved equal to a function
of its old state, and the promises are proved about those functions, mostly as invariants of a step function
over every sequence of events. Beside those stand theorems that say exactly what each object then holds and
answers, in terms of what happened in the run. Time, randomness, and what parsers, signatures and foreign
calls decide are parameters of the events. What a promise needs of the clock is part of its row.

## What does not hold

The code is modelled as it is. These are the places where it, or what its comments promise, stops holding.
Each is named with an input or a run that shows it, and with the theorem that says exactly when it happens.

- A sequence number can be used twice. The session sends a copy again that an earlier connection never had
  confirmed, which takes a number the reservation did not count. The numbers of every run are strictly increasing
  if and only if no process may send more than 101 copies again (`Sequence.SafeExactlyUpToTheMargin`; 102 and a
  crash: `Sequence.OneMoreResendReusesANumber`).
- `queue` says that the writer always finds work waiting when its serving loop returns. It does not when the
  flag is set after the reset for work the drain already took: serving ends at once and the new content is
  owned but not served (`WriterRuns.LateSignalEndsServing`). Left alone, the writer comes to that if and only if
  the signal is out of time and the burst in hand is served (`WriterRuns.WakesToNothingExactlyWhen`).
- Taking a generation and sending are two steps. A write that took its generation before a concealed one and
  was sent after it is erased by the concealed one's clear (`WriterRuns.OvertakenWriteIsErased`). A clear that
  fires takes away only its own write if and only if no write was sent behind that one
  (`WriterRuns.ErasesOnlyItsOwnExactlyWhen`).
- A foreign copy that is too large to read is not counted, so a pending clear still fires
  (`WriterRuns.UncountedCopyLeavesTheClear`); it is stale if and only if something was counted
  (`WriterRuns.FiresExactlyWhenNothingCounted`). The backends then find that the selection is no longer theirs.
- A device heard from in the millisecond of a fall stays listed (`Devices.SameMillisecondKeepsItOnline`); which
  stamps of that millisecond keep a device listed is `Devices.OnlineExactlyWhenKeptListed`.
- Encoding no bytes and decoding the result fails: the relay's decoder refuses the empty text (`Base32.RoundTrip`).
- A desktop entry for a path with a line break names another program
  (`Autostart.EntryRoundTripExactlyWhen`).
- A concealed image answers the password-manager marker but never offers it
  (`Wayland.ImageOffersWhatItServesExactlyWhen`).
- A bulk frame that is refused stays charged to its room (`Quotas.SpentBudgetChargesTheRoom`) if and only if it is
  not empty, the room allows it and the relay-wide budget does not (`Quotas.RefusedYetChargedExactlyWhen`).
- An expired invitation may have granted (`Enroll.ExpiredAndGranted`): it has or may yet if and only if its
  recorded answer is a grant (`Enroll.ExpiredGrantsExactlyWhen`).

## Model

| member | source | states |
|---|---|---|
| Rooms.RoomRegistry.JoinRoom | server/src/rooms.ts:77-105 | joins a room, opening it if need be; at the room cap the empty room idle longest makes way, or the join is refused |
| Rooms.RoomRegistry.LeaveRoom | server/src/rooms.ts:107-118 | takes the connection out and forgets the room once it is empty and holds no clip |
| Rooms.RoomRegistry.IsDuplicate | server/src/rooms.ts:130-142 | the answer and the whole new state of the dedup window |
| Rooms.RoomRegistry.Broadcast | server/src/rooms.ts:145-157 | the recipients are the room without the sender, and only the activity time changes |
| Rooms.RoomRegistry.RetainClip | server/src/rooms.ts:165-177 | stores or refuses the frame, keeps the byte count, and evicts back to the budget |
| Rooms.RoomRegistry.RetainedFor | server/src/rooms.ts:185-193 | an expired clip is dropped and never answered, whether or not a sweep ran |
| Rooms.RoomRegistry.EvictIdlestRoom | server/src/rooms.ts:196-207 | the loop over rooms in insertion order finds what `Idlest` names and removes exactly that room |
| Rooms.RoomRegistry.Sweep | server/src/rooms.ts:210-223 | the loop over a snapshot of the rooms is the fold `SweepRooms`, and counts the clips it drops |
| Rooms.RoomRegistry.EvictUntilWithinBudget | server/src/rooms.ts:268-279 | the eviction loop is the fold `DropUntil` over the sorted candidates |
| RoomRuns.IdlestIsLeast | server/src/rooms.ts:196-207 | the room that makes way is empty, no empty room is idler, and of equally idle ones it is the first opened; there is none only when every room is in use |
| RoomRuns.JoinMeans | server/src/rooms.ts:77-105 | a join is refused for too many rooms if and only if its room would have to be opened, the cap is reached and every room is in use; otherwise for a full room if and only if that many are in it; who joins is told how many are in it, itself among them |
| RoomRuns.RoomsAfter | server/src/rooms.ts:77-223 | exactly which rooms are there after any operation: a join opens one, at the cap in place of the empty one idle longest; leaving forgets one left empty without a clip; a sweep those that do not survive it; nothing else opens or forgets any |
| RoomOrder.OrderAfter | server/src/rooms.ts:54-60 | after any operation the rooms still there stand in the order they stood in, and a new one last: the order of opening, which settles every tie |
| RoomRuns.ByActivityRanked | server/src/rooms.ts:271-273 | the candidates are in order of last activity, ties in order of opening: the sort is stable |
| RoomRuns.RetainEvictsTheShortestPrefix | server/src/rooms.ts:165-177 | a stored clip evicts exactly the shortest prefix of the other rooms, least recently active first, that gets back within the budget, or all of them when none does, and touches nobody else |
| RoomRuns.RetainWithinCeiling | server/src/rooms.ts:262-279 | afterwards the budget holds, or the clip just stored is the only one left |
| RetainedClips.DroppedExactlyWhen | server/src/rooms.ts:262-279 | storing a clip takes another room's clip if and only if the new clip, that one and every other one as recently active do not fit the budget together, and changes nothing else there |
| RoomRuns.SweepMeaning | server/src/rooms.ts:209-223 | a sweep forgets exactly the rooms that are empty and hold no live clip, and drops exactly the expired clips |
| RoomRuns.CountsTheExpired | server/src/rooms.ts:210-223 | the number a sweep answers is the number of rooms whose clip had expired |
| RoomRuns.ApplyKeeps | server/src/rooms.ts:54-280 | every operation keeps: `retainedBytes` is the sum of the frames held and at most max(budget, retainMaxBytes), rooms and connections per room stay within their caps, `seen` is the set of `seenOrder`, which has no repeats and fits the window |
| RoomRuns.AfterOps | server/src/rooms.ts:54-280 | the same after every sequence of operations from an empty registry |
| RoomRuns.MembersAfter | server/src/rooms.ts:77-223 | only joining and leaving change who is in a room, so no eviction and no sweep forgets a room somebody is in |
| RoomRuns.RoomsRemember | server/src/rooms.ts:124-193 | over every run, a room last spoke when its history says, its window is the last `dedupWindow` ids it accepted, and a clip it holds is the newest stored |
| RoomRuns.DuplicateMeansRecentlyAccepted | server/src/rooms.ts:130-142 | over every run, `isDuplicate` answers yes if and only if the id is among the last `dedupWindow` ids accepted as new |
| RoomRuns.ServedClipIsNewestAndLive | server/src/rooms.ts:185-193 | over every run, a clip handed out is the newest stored in its room and within its time to live |
| RetainedClips.HoldsExactly | server/src/rooms.ts:165-223 | over every run, a room that is there holds exactly the clip last stored in it, unless it was found expired or had to make way since |
| RetainedClips.ServedExactlyWhenHeld | server/src/rooms.ts:185-193 | over every run, a clip is handed out if and only if it is the one the room holds and it has not expired; looking takes it away if and only if it has, and changes nothing else |
| Relay.RelayServer.OnConnection | server/src/server.ts:682-730 | a refused address leaves no session; an admitted one gets exactly one |
| Relay.RelayServer.HandleAuth | server/src/server.ts:287-334 | a session becomes ready in exactly the room it joined and is told how many are in it and when the clip held there was stored, or its socket is closed |
| Relay.RelayServer.HandleClip | server/src/server.ts:471-520 | the loop over the sessions hands the clip to exactly the other ready sessions of the sender's room whose socket is open, and to nobody for a duplicate |
| Relay.RelayServer.HandleFetchLast | server/src/server.ts:644-680 | answers the clip the session's room holds, or none, and drops it if it expired |
| Relay.RelayServer.OnMessage | server/src/server.ts:741-846 | the phases: hello first, then auth, then everything else; whatever does not fit closes the socket, and a closing socket is not listened to |
| Relay.RelayServer.OnClose | server/src/server.ts:848-858 | the session goes, its address is released and its room left, if it had joined one |
| Relay.RelayServer.OnSweep | server/src/server.ts:908-911 | rooms and addresses are swept, sessions are not; the quotas the same timer goes over are `Quotas.BulkBudget.Sweep` |
| Relay.StepKeeps | server/src/server.ts:682-918 | every event keeps: each room's connections are the ready sessions with its id, each address is counted for exactly its live admitted sessions and within its cap, and the registry is sound |
| Relay.After | server/src/server.ts:682-918 | the same in every reachable state of the relay |
| Relay.ReadyMeansProved | server/src/server.ts:254-315 | over every run, a ready session said a hello that fits and then proved that it belongs to the very room it is in, both since it was last gone |
| Relay.ReadySessionsKeepTheirRoom | server/src/rooms.ts:196-207 | in every reachable state the room of a ready session exists with it inside: it is never evicted under it |
| Relay.RecipientsAreTheRoom | server/src/server.ts:500-522 | in every reachable state a clip is handed to exactly the room's other members whose socket is open, and a room never has more members than the cap |
| RelayRuns.SessionsComeAndGo | server/src/server.ts:682-730 | in every reachable state, a session comes if and only if somebody connects whose address is below its cap with a token to spend, connected with an open socket, and goes if and only if it is gone |
| RelayRuns.SessionMovesExactlyWhen | server/src/server.ts:741-846 | in every reachable state, a session is challenged exactly by a hello that fits, ready exactly by a proof for a room that has a place, in that room, and has its socket closed exactly when that is decided elsewhere or its frame does not belong where it stands |
| RelayRuns.ReadyExactlyWhenWelcomed | server/src/server.ts:287-315 | over every run, a session is ready in a room if and only if it proved it belongs there while challenged, with its socket open and the room having a place, and is not gone since |
| RelayRuns.RegistryDoesWhatIsAsked | server/src/server.ts:287-918 | over every run, the registry has performed exactly the operations the events ask of it: a join and a look for each welcome, noting and storing for each clip taken in, and so on |
| RelayRuns.RoomHoldsExactly | server/src/server.ts:500-512 | over every run of the relay, a room holds exactly the newest clip taken in there that is small enough, until a clip of another room needs its place, or somebody comes, asks or sweeps when it has expired |
| RelayRuns.TakenInIsHeld | server/src/server.ts:503-512 | right after a clip small enough is taken in, the sender's room holds exactly that frame, with that id and time |
| RelayRuns.HeldIsTheNewest | server/src/rooms.ts:165-177 | over every run of the relay, the clip a room holds is the newest one taken in there |
| RelayRuns.DuplicateChangesNothing | server/src/server.ts:497-500 | in every reachable state, a clip whose id is known changes nothing at all |
| RelayRuns.KnownExactlyWhenAccepted | server/src/server.ts:497-500 | over every run of the relay, an id is known in a room if and only if it is among the last `dedupWindow` accepted there |
| RelayRuns.AskingFindsExactly | server/src/server.ts:644-671 | over every run of the relay, asking finds a clip if and only if it is the one the room holds and it has not expired |
| RelayRuns.ToldExactly | server/src/server.ts:308-325 | over every run of the relay, a session that proves its room is told exactly how many are in it with it, and of a clip exactly when the room holds one that has not expired |
| RelayRuns.LimiterDoesWhatIsAsked | server/src/server.ts:682-918 | over every run, the address limiter was asked exactly about the connections that came and went and the sweeps |
| TokenBuckets.TokenBucket.RefillTo | server/src/limits.ts:41-51 | refilling by the clock, with a backward jump minting nothing |
| TokenBuckets.TokenBucket.Take | server/src/limits.ts:26-31 | spends exactly the cost, or nothing at all |
| TokenBuckets.TokenBucket.RetryAfterMs | server/src/limits.ts:34-39 | answers the hint and spends nothing |
| TokenBuckets.TakesAreEarned | server/src/limits.ts:12-58 | over every trace of calls and any clock, tokens stay within the capacity and all that was granted was held or earned by forward clock steps |
| TokenBuckets.NewBucketBound | server/src/limits.ts:12-58 | a new bucket grants at most its capacity plus rate times the sum of forward clock steps |
| TokenBuckets.EveryTokenIsAccounted | server/src/limits.ts:12-58 | over every trace and any clock, what was granted, what is left and what found the bucket full add up to what it held and what the forward steps earned |
| TokenBuckets.HintIsExact | server/src/limits.ts:33-39 | with nothing taken in between, a take of at most the capacity succeeds `e` milliseconds later if and only if `e` reaches the hint |
| TokenBuckets.RefillTwice | server/src/limits.ts:41-56 | refilling on the way changes nothing, so looking at a bucket cannot be observed |
| Quotas.RollingQuota.Charge | server/src/limits.ts:74-79 | charges within the limit of the current window, or leaves the count alone |
| Quotas.RollingQuota.RetryAfterMs | server/src/limits.ts:91-94 | the hint names the end of the window, which lies ahead |
| Quotas.ChargedExactlyWhen | server/src/limits.ts:74-79 | a charge goes through if and only if what counts against the room and the charge are within the limit; then it counts, a refused one does not, and nobody else's count changes |
| Quotas.BulkBudget.ChargeBulk | server/src/server.ts:149-175 | the room pays first, and a frame the relay-wide budget then refuses stays charged to its room |
| Quotas.LetThroughExactlyWhen | server/src/server.ts:149-175 | a frame gets through if and only if its room's quota and the relay-wide one both allow it, and only then counts against the relay-wide one |
| Quotas.RefusedYetChargedExactlyWhen | server/src/server.ts:149-175 | for quotas whose window has a positive length, a frame leaves more counted against its room although it was refused if and only if it is not empty, the room's quota allows it and the relay-wide one does not |
| Quotas.SpentBudgetChargesTheRoom | server/src/server.ts:149-175 | one such frame, with the relay-wide budget spent |
| Quotas.BulkBudget.Sweep | server/src/server.ts:908-918 | exactly the idle quotas of unoccupied rooms are forgotten |
| Quotas.ForgetsExactlyTheUncounted | server/src/server.ts:911-917 | a sweep forgets a room's quota if and only if nobody is in the room and nothing counts against it, and no room's count is different for it from then on |
| Quotas.AtMostTwoWindows | server/src/limits.ts:61-102 | charges grouped by the windows that took them: a span one window long meets at most two |
| Quotas.TwiceTheLimit | server/src/limits.ts:61-102 | a room is charged at most twice its limit in any half-open span one window long, through every mix of charges and sweeps with a clock that never goes back |
| Quotas.TwiceTheLimitIsReached | server/src/limits.ts:96-101 | the bound is tight up to one byte, at every limit and every window longer than a millisecond |
| Quotas.TwiceTheBudget | server/src/server.ts:149-175 | all rooms together get at most twice the relay-wide budget through in such a span |
| IpLimits.IpLimiter.TryAdmit | server/src/limits.ts:124-141 | the answer and the new entries, including a refused attempt's refill |
| IpLimits.IpLimiter.ReleaseOne | server/src/limits.ts:143-148 | one connection less, never below none; unknown addresses are ignored |
| IpLimits.IpLimiter.Sweep | server/src/limits.ts:151-157 | exactly the unused entries with a full bucket go, and asking the others refills them |
| IpLimits.SweepingIsInvisible | server/src/limits.ts:111-157 | for every trace with a clock that never goes back, a limiter that sweeps gives the answers of one that never does |
| IpLimits.AnswerMeans | server/src/limits.ts:124-141 | too many exactly at the cap, too fast exactly below it without a token, and let in exactly otherwise |
| IpLimits.SweepForgetsExactly | server/src/limits.ts:151-157 | a sweep forgets exactly the addresses without a connection, last seen too long ago, whose bucket would be full; nobody else's connections, times or tokens change |
| IpLimits.AnsweredExactlyWhen | server/src/limits.ts:111-157 | over every run with a clock that never goes back, sweeps and all: too many if and only if as many as allowed were let in and have not left; otherwise let in if and only if a bucket full at the first arrival, drawn on by each try since, has a token |
| IpLimits.LastSeenWhenItCameOrLeft | server/src/limits.ts:124-148 | over every run, a known address was last seen when it last came or left |
| IpLimits.HeldAfterAdmit | server/src/limits.ts:124-141 | an admitted address holds one more and at most its cap; nobody else is touched |
| Delivery.Receiver.DeliverClip | server/src/server.ts:336-354 | sends at once, or parks in the single slot and starts its clock |
| Delivery.Receiver.DeliverChunk | server/src/server.ts:364-380 | a chunk passes, or closes a socket past the hard limit |
| Delivery.Receiver.FlushTick | server/src/server.ts:880-905 | empties the slot once the socket caught up, or gives the receiver up after the grace |
| Delivery.ParkedExactlyWhileTimed | server/src/server.ts:336-354 | over every run, a clip is parked if and only if `backpressureSinceMs` is set, which is when the slot was taken |
| Delivery.ParkedExactlyWhenBehind | server/src/server.ts:336-354 | over every run while the socket is open, a clip that comes is parked if and only if one already waits or the socket is past the soft limit, and otherwise sent at once |
| Delivery.NothingSentWhileBehind | server/src/server.ts:341-346 | over every run, nothing is sent while the socket is past the soft limit |
| Delivery.OpenExactlyUntilClosed | server/src/server.ts:364-380 | over every run, the socket is open if and only if it was not closed elsewhere, no chunk found it past the hard limit and no tick found a clip waiting too long |
| Delivery.SentInOrderEndingInNewest | server/src/server.ts:336-354 | over every run while the socket is open, the clips sent and then the parked one are distinct forwards in forwarded order, ending in the newest |
| Delivery.GivenUpExactlyWhenStalled | server/src/server.ts:880-905 | a tick gives a receiver up if and only if its slot was taken longer ago than the grace and it is still behind |
| Fanout.AdvanceKeeps | server/src/server.ts:336-380 | sessions and slots stay one to one and agree on which sockets are open, and every relay event, chunk, drain and flush keeps the relay's own invariant |
| Fanout.SlotIsItsShare | server/src/server.ts:336-354 | over every run of the relay with all its sessions, each slot is exactly where the events that concern its own session take a fresh one |
| Fanout.ForwardsAreDue | server/src/server.ts:500-509 | over every run, what was forwarded to a session whose socket is open is exactly what the relay took in from others in its room while it was a member there, in that order |
| Fanout.ReceivesInOrderEndingInNewest | server/src/server.ts:336-354 | over every run of the relay with all its sessions, the live clips sent to a session whose socket is open, then the one parked for it, are distinct clips taken in from others in its room while it was a member, in that order, ending in the newest |
| Fanout.CaughtUpHasTheNewest | server/src/server.ts:880-892 | over every run, a tick leaves a session that is open and not behind with nothing parked, and with the newest clip due to it as the last one sent |
| Sequence.SequenceWatch.IssueOne | crates/asli-app/src/daemon.rs:1287-1296 | counts a number and asks for the next block a margin before the ceiling |
| Sequence.StateFile.Reserve | crates/asli-app/src/daemon.rs:686-697 | the block is on disk before its first number is handed out |
| Sequence.StateFile.RaiseTo | crates/asli-app/src/daemon.rs:704-712 | raises the number on disk and never lowers it |
| Sequence.StepKeeps | crates/asli-app/src/daemon.rs:1268-1361 | every step of a start, copy, raise, hand-over, send, resend, disconnect or crash keeps the order of the numbers used and their reservation |
| Sequence.NumbersIncrease | crates/asli-app/src/daemon.rs:686-709 | over every run of starts, copies, disconnects, crashes at any point and restarts, the numbers used are strictly increasing and none is above the one on disk, as long as no process sends more than 101 unconfirmed copies again |
| Sequence.UsedBelowCeiling | crates/asli-app/src/daemon.rs:1268-1296 | with nothing sent again, used <= issued < ceiling <= the number on disk whenever no raise is due |
| Sequence.DiskNeverFalls | crates/asli-app/src/daemon.rs:704-709 | nothing in any run lowers the number on disk |
| Sequence.ResentExactlyWhenLeft | crates/asli-net/src/client.rs:317-366 | over every run, a copy is sent again if and only if a connection was cut off before its copy was confirmed, it was not sent again since, and none awaits its confirmation now; that takes exactly one number |
| Sequence.OneMoreResendReusesANumber | crates/asli-app/src/daemon.rs:1700-1703 | a concrete run in which one process sends 102 copies again, crashes and restarts, and uses a number twice |
| Sequence.SafeExactlyUpToTheMargin | crates/asli-app/src/daemon.rs:686-709 | that no process may send more than n copies again keeps the numbers of every run from every disk strictly increasing if and only if n is at most 101 |
| Enroll.Shared.TakeRequest | crates/asli-app/src/enroll.rs:499-532 | records a request the first time its id is seen, while there is no answer and room for it |
| Enroll.Shared.Decide | crates/asli-app/src/enroll.rs:536-584 | only the first decision counts, an approval needs a recorded request, and an answer that cannot be made ends the invitation |
| Enroll.Shared.Settled | crates/asli-app/src/enroll.rs:588-600 | a failure first, then an answer the relay confirmed |
| Enroll.Attempt.OnAnswer | crates/asli-app/src/enroll.rs:788-807 | the first outcome found stays |
| Enroll.Attempt.TakeNearbyAnswer | crates/asli-app/src/enroll.rs:888-901 | the waiting answer is taken once and judged like any other |
| Enroll.OneAnswer | crates/asli-app/src/enroll.rs:274-320 | over every interleaving of requests, decisions, reconnects and lost or repeated messages, every copy an invitation sends by either way is the same answer |
| EnrollRuns.AnswersTheDecision | crates/asli-app/src/enroll.rs:536-584 | over every run, there is an answer if and only if somebody was declined, or approved who is on the list, while the invitation was open, undecided and had not failed, and the body could be made; it is that decision's, it went out on the relay, and every copy is that one |
| EnrollRuns.DecisionStands | crates/asli-app/src/enroll.rs:536-584 | the answer of such a decision, declining or approving, stands whatever comes after it |
| EnrollRuns.ListsTheRequests | crates/asli-app/src/enroll.rs:499-532 | over every run, the list is exactly the requests that came the right way, under a new id, before the answer and while there was room, in order |
| EnrollRuns.EndsAsItWent | crates/asli-app/src/enroll.rs:586-600 | over every run, the invitation ends exactly as failed, as its confirmed answer or as expired, by which came first |
| EnrollRuns.ConfirmedDeclineEndsDeclined | crates/asli-app/src/enroll.rs:570-600 | once somebody was declined and the relay has read it, an open invitation that looks ends as declined |
| EnrollRuns.DeviceEndsAsItHears | crates/asli-app/src/enroll.rs:788-901 | over every run, every new device ends with exactly the first answer it hears, by either way, that was made for it, unless it gave up before |
| EnrollRuns.DeclinedIsTurnedDown | crates/asli-app/src/enroll.rs:788-807 | a device declined under its own id that has no outcome ends turned down once a copy reaches it |
| Enroll.AnswerStays | crates/asli-app/src/enroll.rs:536-548 | once there is an answer nothing changes it and no request is added |
| Enroll.OneDeviceIsAnswered | crates/asli-app/src/enroll.rs:864-885 | any two new devices that end with an answer asked under the same id and got the same answer, so two with different ids are never both granted |
| Enroll.GrantedMeansAskedAndApproved | crates/asli-app/src/enroll.rs:281-320 | a granted device's id and key were recorded, by the local network if only that counts, the person approved that id, and the invitation can only end saying so or expired |
| Enroll.ApprovedMeansConfirmed | crates/asli-app/src/enroll.rs:588-600 | an invitation that ends approved with a name relayed a confirmed grant for a recorded request of that name |
| Enroll.RequestsAreFewAndDistinct | crates/asli-app/src/enroll.rs:508-516 | at most eight requests, no two with one id, over every run |
| Enroll.ExpiredAndGranted | crates/asli-app/src/enroll.rs:256-262 | a concrete run in which an expired invitation has granted: the answer went out unconfirmed |
| Enroll.ExpiredGrantsExactlyWhen | crates/asli-app/src/enroll.rs:588-600 | over every run, an invitation that ended as expired has granted a device or yet comes to grant one in some continuation if and only if its recorded answer is a grant |
| ClipboardWriter.Clipboard.ApplyWrite | crates/asli-app/src/clipboard_io.rs:482-505 | one write or clear, and whether it released |
| ClipboardWriter.Batch.Push | crates/asli-app/src/clipboard_io.rs:522-529 | a write replaces everything before it, a clear only an earlier clear |
| ClipboardWriter.Batch.Drain | crates/asli-app/src/clipboard_io.rs:532-541 | the receive loop is the fold of `Push` over all that was queued |
| ClipboardWriter.Batch.Apply | crates/asli-app/src/clipboard_io.rs:545-560 | the write, then the clear, and whether something of ours is held |
| ClipboardWriter.SystemClipboard.QueueWrite | crates/asli-app/src/clipboard_io.rs:278-299 | the generation answered is the one this write produced; sent, then signalled |
| ClipboardWriter.SystemClipboard.WriterTurn | crates/asli-app/src/clipboard_io.rs:577-592 | for whatever is queued: one turn applies the batch it folds to and leaves what applying it one by one would leave if and only if `BurstAllows` holds of the queue |
| ClipboardWriter.OneByOneMeaning | crates/asli-app/src/clipboard_io.rs:508-513 | one by one, only the last write matters and whether any clear behind it fires |
| ClipboardWriter.BatchingIsOneByOneExactlyWhen | crates/asli-app/src/clipboard_io.rs:514-560 | for every queue and generation, a batch leaves what one-by-one application leaves if and only if no clear behind the last write fires, or the last one does, or nothing of ours was there |
| ClipboardWriter.BatchingIsOneByOne | crates/asli-app/src/clipboard_io.rs:514-560 | clears queued in the order they were scheduled always meet that condition |
| ClipboardWriter.BurstLeaves | crates/asli-app/src/clipboard_io.rs:514-560 | a batch leaves nothing of ours if its last piece is a clear still due, and otherwise its last write or what was there; there is something to serve if and only if it wrote and was not so cleared |
| WriterRuns.NoLostWakeup | crates/asli-app/src/clipboard_io.rs:278-299 | over every interleaving of any number of queuers and timers, whenever the writer serves and work waits, the flag is set or the thread that sent some of that work has yet to set it |
| WriterRuns.NothingLost | crates/asli-app/src/clipboard_io.rs:577-592 | what was taken followed by what waits is what was sent, in order |
| WriterRuns.QuietMeansAllTaken | crates/asli-app/src/clipboard_io.rs:577-606 | once every thread is done and the writer idle, everything sent was taken |
| WriterBoards.BoardExactly | crates/asli-app/src/clipboard_io.rs:545-606 | over every interleaving, the clipboard holds the last write of the latest turn that applied one, unless somebody else copied or a turn cleared it since; the writer serves exactly since such a turn until woken or failing; the flag is set exactly since a thread set it until it is reset |
| WriterRuns.ServingEndsForWork | crates/asli-app/src/clipboard_io.rs:583-592 | if every signal comes before the reset or while something waits after the drain, serving ends on the flag only when work waits |
| WriterRuns.WakesToNothingExactlyWhen | crates/asli-app/src/clipboard_io.rs:577-606 | once a thread sets the flag, the writer left alone comes to serve with the flag set and nothing waiting if and only if the signal came after the reset with nothing waiting behind the drain, and the burst in hand is one it serves |
| WriterRuns.LateSignalEndsServing | crates/asli-app/src/clipboard_io.rs:273-277 | a concrete run of that: the writer serves with the flag set and nothing waiting, its content is on the clipboard, every thread is done, and its next step is to stop serving |
| WriterRuns.ErasesOnlyItsOwnExactlyWhen | crates/asli-app/src/clipboard_io.rs:482-505 | over every run, in whatever order threads send, a clear that fires takes away only the write it was scheduled for if and only if nothing of ours is there or no write taken was sent behind that one |
| WriterRuns.ClearErasesOnlyItsOwn | crates/asli-app/src/clipboard_io.rs:278-299 | that is always so when threads send in the order of their generations |
| WriterRuns.FiresExactlyWhenNothingCounted | crates/asli-app/src/clipboard_io.rs:485-500 | over every run, a clear scheduled for the generation that stands fires later if and only if no write was queued and no foreign copy observed in between |
| WriterRuns.NoClearAfterABump | crates/asli-app/src/clipboard_io.rs:485-500 | once a later write is queued or a foreign copy counted, a clear never fires |
| WriterRuns.UncountedCopyLeavesTheClear | crates/asli-app/src/clipboard_io.rs:451-479 | a concrete run in which a foreign copy that is never observed leaves the clear of an earlier concealed write to fire, on a clipboard that holds nothing of ours |
| WriterRuns.OvertakenWriteIsErased | crates/asli-app/src/clipboard_io.rs:278-299 | a concrete run in which a write that took its generation first and was sent last is erased by the other write's clear |
| Devices.Registry.HearAnnouncement | crates/asli-app/src/devices.rs:156-196 | records an announcement, keeps pinned keys and evicts past the cap |
| Devices.Registry.HearCard | crates/asli-app/src/devices.rs:199-246 | records a card, drops the keyless entries it supersedes and evicts past the cap |
| Devices.Registry.DropSuperseded | crates/asli-app/src/devices.rs:231-239 | exactly the other keyless entries of that name and system go |
| Devices.Registry.SetConnection | crates/asli-app/src/devices.rs:349-372 | the loop at a disconnect stamps exactly those listed as online; a connect starts over |
| Devices.Registry.HearPresence | crates/asli-app/src/devices.rs:375-393 | the loop at a fall of the count lifts exactly those listed as online to just before it |
| Devices.Registry.Evict | crates/asli-app/src/devices.rs:451-464 | the loop drops the oldest, the first by id of equals, until the cap fits |
| Devices.EvictionKeepsTheNewest | crates/asli-app/src/devices.rs:451-464 | eviction only drops, exactly down to the cap, and everyone dropped was heard from before everyone kept |
| Devices.JustHeardIsKept | crates/asli-app/src/devices.rs:156-246 | with a strictly increasing clock, whoever was just heard from is in the list, which fits the cap |
| Devices.AnnouncingKeepsKeys | crates/asli-app/src/devices.rs:161-180 | an unsigned announcement never clears keys a card pinned |
| Devices.CardDropsTheKeyless | crates/asli-app/src/devices.rs:229-239 | a card drops every keyless entry of that name and system, and any other one only for room |
| DeviceEntries.ListedAsLastHeard | crates/asli-app/src/devices.rs:156-393 | over every run and any clock, a known device is listed with the name and system it was last heard under, the keys of its last card, and the time it was last heard or left; the connection and count are the last ones heard |
| DeviceEntries.KnownExactlyWhen | crates/asli-app/src/devices.rs:156-464 | who is in the list after any step: a hearing puts its device in, a card takes its keyless twins out, and of those an entry stays if and only if fewer than the list holds outlive it |
| Devices.OnlineExactlyWhenHeardSince | crates/asli-app/src/devices.rs:405-424 | over every run with a strictly increasing clock, a known device is listed online if and only if this one is connected and heard from it since the later of the last connect and the last fall of the count |
| Devices.LastSeenWhenItLeft | crates/asli-app/src/devices.rs:349-393 | a device that stops being online is left at the moment of the disconnect, or just before the fall |
| Devices.OfflineUntilHeard | crates/asli-app/src/devices.rs:349-393 | an offline device stays offline with its last-seen time unchanged until it is heard from again |
| Devices.SameMillisecondKeepsItOnline | crates/asli-app/src/devices.rs:375-393 | a concrete run showing that the clock has to be strictly increasing: a device heard from in the millisecond of the fall stays listed |
| Devices.OnlineExactlyWhenKeptListed | crates/asli-app/src/devices.rs:349-424 | over every run with a clock that may stand still, a known device is listed online if and only if this one is connected and heard from it since the last connect or fall, or had it stamped with the very time of that connect or fall |
| Wayland.PayloadFor | crates/asli-clipboard/src/linux_wayland.rs:940-945 | the search finds the first row of that type |
| Wayland.PasteGets | crates/asli-clipboard/src/linux_wayland.rs:925-945 | a paste gets the content for every offered type, the marker's value for the marker of a concealed write, and nothing else |
| Wayland.Connection.ReplacePending | crates/asli-clipboard/src/linux_wayland.rs:276-281 | an older unread offer is forgotten and destroyed |
| Wayland.Connection.OnMime | crates/asli-clipboard/src/linux_wayland.rs:778-794 | a type joins its offer's list |
| Wayland.Connection.OnSend | crates/asli-clipboard/src/linux_wayland.rs:806-813 | a paste is answered only on the source being served |
| Wayland.Connection.OnCancelled | crates/asli-clipboard/src/linux_wayland.rs:814-818 | a late cancellation of a replaced source touches nothing |
| Wayland.Connection.SetText | crates/asli-clipboard/src/linux_wayland.rs:421-446 | the new source, its table and the types it offers |
| Wayland.Connection.SetImage | crates/asli-clipboard/src/linux_wayland.rs:480-502 | refused unless it is an image; otherwise the new source, its table and the types it offers |
| Wayland.Connection.ReleaseSelection | crates/asli-clipboard/src/linux_wayland.rs:453-473 | gives the selection up only while it is ours |
| Wayland.Connection.Turn | crates/asli-clipboard/src/linux_wayland.rs:643-694 | one pass of the loop: the baseline, the serve-only connection, the read offer, and the end |
| Wayland.OffersAreTheOpenOnes | crates/asli-clipboard/src/linux_wayland.rs:271-304 | over every run, the map holds exactly the offers announced and not yet used, and the pending one |
| Wayland.DestroyedExactlyOnce | crates/asli-clipboard/src/linux_wayland.rs:663-693 | over every run, every replaced, read, skipped or primary-selection offer was destroyed exactly once, and no other |
| Wayland.PasteGetsTheLatestWrite | crates/asli-clipboard/src/linux_wayland.rs:284-297 | over every run of writes, releases, selections and late cancellations, a source answers with the latest write's table if and only if it is that write's source and neither cancelled nor released |
| Wayland.ReleasesOnlyItsOwn | crates/asli-clipboard/src/linux_wayland.rs:453-473 | over every run, a release clears the selection if and only if the latest write still holds it |
| Wayland.TextOffersWhatItServes | crates/asli-clipboard/src/linux_wayland.rs:421-440 | a text source offers exactly the types it answers |
| Wayland.ImageOffersWhatItServesExactlyWhen | crates/asli-clipboard/src/linux_wayland.rs:483-497 | an image source does if and only if it is not concealed: the marker is answered and never offered |
| Wayland.ReadsTheBest | crates/asli-clipboard/src/linux_wayland.rs:505-560 | a marked offer is never read; otherwise the most specific offered text type, and an image only when no text is offered |
| Wayland.BaselineIsNeverReported | crates/asli-clipboard/src/linux_wayland.rs:660-676 | over every run, a connection that only serves reports nothing, and one that reads nothing up to its baseline |
| WaylandReports.ReportsExactly | crates/asli-clipboard/src/linux_wayland.rs:505-694 | over every run, the reports are exactly one for each turn that reads an offer past the baseline: the marker, the bytes as text or as an image by the types described for that offer, too large, or nothing; and the watcher ends exactly when the connection is finished or a read breaks |
| WaylandReports.SelectsExactly | crates/asli-clipboard/src/linux_wayland.rs:421-473 | over every run, the selections requested are exactly one for each write and an empty one for each release that finds the last write still served |
| Base32.DecodeCrockford | server/src/base32.ts:33-62 | with its wrapping 32-bit accumulator, the loop succeeds exactly when the text spells some bytes of the expected length, at every length, and answers them |
| Base32.Encode | crates/asli-crypto/src/base32.rs:16-38 | with its 16-bit buffer, the loop writes the shortest canonical text of the bytes |
| Base32.OneMeaning | server/src/base32.ts:33-62 | no text spells two different byte strings of one length |
| Base32.DecodesExactlyTheFolds | server/src/base32.ts:11-62 | exactly the texts that fold to the encoding (case, I and L to 1, O to 0), or to the encoding and one more zero where fewer than three bits were spare, decode to the bytes; the empty text never does |
| Base32.AtTheEncodersLength | server/src/base32.ts:11-62 | among texts of the encoder's own length, exactly those that fold to the encoding |
| Base32.RoundTrip | server/src/base32.ts:33-62 | decoding an encoding gives the bytes back if and only if there are any |
| Base32.TwentySevenCharacters | server/src/base32.ts:41-59 | sixteen bytes encode to 26 characters, and those with a zero behind them decode as well |
| ShellLink.Inspect | crates/asli-app/src/shortcut.rs:311-380 | total on every byte sequence: a result or an error, with every length checked before it is used |
| ShellLink.ReadStrings | crates/asli-app/src/shortcut.rs:325-358 | the loop over the five string fields |
| ShellLink.ReadBlocks | crates/asli-app/src/shortcut.rs:367-379 | the loop over the extra blocks always moves on and ends |
| ShellLink.ReadsStrings | crates/asli-app/src/shortcut.rs:325-358 | whichever of the five strings are present, ANSI or UTF-16, they are stepped over exactly, and the icon location is the last field's |
| ShellLink.ReadsBlocks | crates/asli-app/src/shortcut.rs:367-379 | every sequence of blocks before a short one or the end is read |
| ShellLink.ReadsBack | crates/asli-app/src/shortcut.rs:311-380 | every well-formed link, with any header, item ids, link info, strings, blocks and ending, reads back as exactly its environment facts and its icon path without trailing NULs |
| ShellLinkLayout.ReadsExactly | crates/asli-app/src/shortcut.rs:311-380 | of every byte string: it is read as certain facts if and only if it has a link's header and its parts stand behind one another as its flags say, with those facts in them |
| ShellLinkLayout.RefusedExactlyWhen | crates/asli-app/src/shortcut.rs:311-315 | it is refused for its header if and only if another size or class can be seen there, and otherwise, exactly when its parts do not fit, for ending early |
| ShellLinkLayout.FlagsAreMasked | crates/asli-app/src/shortcut.rs:265-274 | each flag is the one with its mask in LinkFlags |
| ShellLink.FlagsReadBack | crates/asli-app/src/shortcut.rs:265-274 | each flag is read from its own bit, whatever the other bits are |
| ShellLink.BitIsMasked | crates/asli-app/src/shortcut.rs:265-274 | the bit at k is the one the mask 2^k asks for |
| ShellLink.TrimmedExactly | crates/asli-app/src/shortcut.rs:354-357 | trimming takes off exactly the trailing NULs |
| Autostart.ExecQuote | crates/asli-app/src/autostart.rs:113-135 | the escaping loop |
| Autostart.ExecUnquote | crates/asli-app/src/autostart.rs:138-162 | the unescaping loop with its runs of up to four backslashes |
| Autostart.QuotingRoundTrip | crates/asli-app/src/autostart.rs:113-162 | for every path, unquoting what was quoted gives the path back |
| Autostart.ReadsAsOneArgument | crates/asli-app/src/autostart.rs:107-135 | read as the Desktop Entry Specification reads an Exec line, the quoted path is one argument with every percent sign doubled, followed by the rest of the line |
| Autostart.EntryRoundTripExactlyWhen | crates/asli-app/src/autostart.rs:177-199 | the entry written for a path names that path if and only if it holds no line break |
| LaunchAgent.XmlEncodes | crates/asli-app/src/autostart.rs:531-535 | the chain of replacements writes each of the three characters as its entity and no other |
| LaunchAgent.XmlRoundTrip | crates/asli-app/src/autostart.rs:531-584 | escaping and reading back gives the text, even one that holds entities of its own |
| LaunchAgent.AgentRoundTrip | crates/asli-app/src/autostart.rs:537-584 | for every program and log path, the program read back from the property list is the one written |

## Left out

- WebSockets, HTTP, heartbeats, timers, logging and metrics: they appear as events with a time.
- JSON, frame validation and configuration parsing: what they decide is part of the event.
- Signatures, sealing and the session of asli-net: a grant is an ideal token that opens only for its id and key, and a decline one that counts only for its id; comparison codes, and the cap on simultaneous local connections, are not modelled.
- Relay sessions hold no buckets: what rate limits and quotas decide about a frame is part of the event, and `TokenBuckets` and `Quotas` are about them on their own.
- The limiter's buckets, the rooms and the sessions are values in the maps that hold them, so aliasing of one room or bucket by two owners is not captured; the source never does that.
- Announcements, directed messages and chunk assembly in the relay are one event that notes an id or changes nothing.
- Relay.RelayServer.OnSweep: the quotas that the same timer goes over are not part of this state, since quota decisions are part of the event; `Quotas.BulkBudget.Sweep` is that loop.
- Presence broadcasts and their debounce timer.
- The stored clip sent to a session that asks for it is not one of the clips `Delivery` and `Fanout` follow, which are those forwarded live.
- A session that asks for the stored clip while its socket is behind is refused: that decision is part of the event.
- Token amounts are real numbers: floating-point rounding is not modelled.
- Counters are unbounded: the saturation and wrap of 64-bit sequence and generation counters is not modelled.
- `raise_reservation` is one step: its load and save are not under one lock.
- Disk writes succeed: a failed raise is only logged in the source.
- Sequence.NumbersIncrease: requires at most 101 resends per process, which is exact by `Sequence.SafeExactlyUpToTheMargin`; the resends themselves are in crates/asli-net/src/client.rs.
- Clipboard writes succeed; a write that fails leaves older content, which a batch and one-by-one application may then differ on.
- Memory ordering: the clipboard's flag and counter are sequentially consistent here and relaxed in the source.
- What the echo guard recognises as our own write is not counted in the source and is not an event here.
- The serving loop of a backend that need not serve, on Windows and macOS: their turns are `WriterTurn` without it.
- The list's order of rows, connection ids and versions of devices; ids are numbers in the order of their hex strings.
- Wayland object ids are not reused, and a cancelled source's own destruction is not counted.
- Reading an offer's bytes, with its pipe, its limit and its timeout: the result is a parameter.
- Decoding a shortcut's UTF-16 text, which may be lossy: strings are sequences of units.
- Decoding base32 on the client, which ignores hyphens and does not check a length.
- Registry values, start-up folders and the state of start-up switches on Windows; creating and removing the files on every system.
- The window, the tray, notifications, history, thumbnails, key storage, account moves and transfers.
