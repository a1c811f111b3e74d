# pi-mesh: a verified model of the broker and its client

pi-mesh is a local message broker with a client library. Agents connect under
an alias, join rooms, send each other directed, capability-routed and broadcast
messages, await replies, take task leases and steer each other with control
frames. This project models the parts that are hard to get right and proves,
for every input and every run, what they promise.

## How it is organised

Operations that update something in place are classes and methods here too
(`StateTables.BrokerState`, `Lease.LeaseTable`, `Frames.FrameDecoder`,
`Batcher.InboundBatcher`, `Pending.PendingReplies`, `Replies.ReplyDesk`,
`Client.MeshClient`, `Server.Server`). Each method is proved equal to a function
on values, and the promises are lemmas about those functions, most of them over
whole runs.

| file | what it holds |
|---|---|
| `Common.dfy`, `State.dfy` | names, frames, the room grammar, the shared broker tables |
| `RateLimit.dfy` | token buckets and the bound they enforce |
| `Mailbox.dfy` | the offline mailbox: conservation, order, cap, age |
| `Rooms.dfy` | two-sided room membership |
| `Policy.dfy`, `CapRouting.dfy` | policy decisions, choosing a capable peer |
| `Lease.dfy`, `LeaseClaims.dfy`, `LeaseTrailer.dfy` | task leases and epochs, what a claim gets, the commit trailer |
| `Broker.dfy` | the broker protocol as steps on its tables |
| `Server.dfy` | the broker object whose handlers do exactly those steps |
| `Routing.dfy` | what happens to one submitted message |
| `Membership.dfy` | hello, and both sides of membership over all runs |
| `Outcomes.dfy`, `Honesty.dfy` | exactly one answer per message, and what it proves |
| `Control.dfy`, `Acks.dfy` | control frames and their acknowledgements |
| `Governance.dfy`, `Refusals.dfy` | what the policy does to the frames of a run, and why something is refused |
| `CapTargets.dfy` | capability targets and what becomes of messages to them |
| `Connections.dfy` | connections, the records behind them, and what is remembered |
| `Throughput.dfy`, `Budgets.dfy`, `Postbox.dfy` | rate limits and mailboxes inside broker runs |
| `Scenarios.dfy` | concrete broker runs, most of them of a promise that fails |
| `Client.dfy` | the client's rooms and roles, alone and together with the broker |
| `Pending.dfy`, `Reminders.dfy`, `Replies.dfy` | awaiting replies under timers, classifying replies |
| `Utf8.dfy`, `Frames.dfy` | decoding buffers of bytes, newline-delimited frames |
| `Batcher.dfy` | the inbound batcher |
| `ProjectRoom.dfy`, `Slugs.dfy` | project rooms and room scope, the slug in terms of words |

Modelling conventions:

- The clock is an argument. Where a result needs it to be non-decreasing, the
  lemma says so.
- A socket is a number with a destroyed flag. A frame handed to a socket is an
  outstanding write; the environment decides its outcome later
  (`Broker.Step.WriteDone`, `FanWriteDone`, `CtlWriteDone`, `MailWriteDone`). A write that
  fails at once is one that the environment fails first. A failed write of an
  acknowledgement or welcome is the step `SendFailed`.
- Every message of an authenticated peer gets the next number; `Outcomes.Count`
  counts the answers to a number.
- Token counts are reals. Hashes are injective, message and lease ids are given.
- The identity of a peer record is its `gen`, which a re-hello changes.
- `Broker.Run` covers every interleaving: any step may be attempted at any
  time, and one that cannot happen changes nothing.
- A `Server.Server` keeps the events it has handled as a ghost history; `Valid()`
  says that its state is that of `Broker.Run` on them, and every event method keeps
  it. So what is proved of all runs holds of every broker object.

## Where the code and its promises differ

Each entry names the theorem that says exactly when it happens, then an input or
run in which it does.

- Two projects whose directories share a base name drop each other's derived
  room as stale, although the rooms differ
  (`ProjectRoom.DerivedStaleIffSameSlug`; `SameNameDropsRoom`).
- The reported broadcast room is not among the joined rooms when the cap leaves
  none, as with repeated rooms or a cap of zero (`ProjectRoom.ScopeAgreesIff`;
  `DuplicatesBreakScope`, `ZeroCapBreaksScope`).
- A buffer of bytes that begins inside a code point is decoded wrongly, so frames
  come back changed (`Frames.FramesRoundTripIff`; `SplitCodePoint`).
- With a mailbox cap below one, which a configured fraction is rounded down to,
  `queued_offline` is acknowledged for a message that is not kept
  (`Mailbox.NewestSurvives`; `Scenarios.QueuedButNotKept`).
- Mailbox entries flushed at a hello count as delivered when they are written; if
  the write fails they are lost without a receipt (`Postbox.BrokerConservesMail`
  and `FailedMailIsSilent`; `Scenarios.MailIsLost`). A drop is not announced to a
  sender that is offline (`Postbox.NoticesTellTheDrops`).
- Asking for the size of a mailbox discards what it finds expired without a
  receipt (`Mailbox.SilentLossOnlyBySizeQuery`; `SizeQueryLoses`); the broker
  never asks.
- A hello that replaces the record of a destroyed connection leaves the alias
  listed in rooms it does not join again (`Membership.StepExactIff`;
  `ReplacementLeavesGhost`).
- A message that no recipient can be given, for instance because the policy
  denies it, has already been charged (`Routing.RefusedAndChargedIff`;
  `Scenarios.DeniedIsCharged`). So `Throughput.BrokerRateBound` bounds what gets
  through and `Throughput.LimitedOnlyAfterFullMinute` speaks of what was charged.
- A broadcast is forwarded unchanged where force is to be downgraded
  (`Routing.BroadcastForceIff`; `Scenarios.ForceIsBroadcast`).
- A room that is left locally between hello and welcome stays joined at the broker
  (`Client.ForgottenMidHandshake`; `HandshakeRace`), although the command promises
  that the broker is brought in line.
- An epoch write that fails, followed by a clock that has not advanced, makes a
  restarted broker issue an old fence again (`Lease.EpochsIncreaseIff`;
  `UnsafeRestartReissuesStamp`).
- An answer that was consumed within the window is consumed again exactly if its id
  is awaited once more (`Replies.DroppedIffRecentlyConsumed`;
  `ReusedIdIsConsumedTwice`); fresh ids rule that out.

## Model

| member | source | states |
|---|---|---|
| `RateLimit.CheckRate` | src/broker/ratelimit.ts:24-76 | the in-place check leaves exactly the refilled and charged buckets of the specification and its verdict |
| `RateLimit.RateBound` | src/broker/ratelimit.ts:24-76 | over every run of checks under a non-decreasing clock, the grants charged to one bucket in (t1, t2] are at most its capacity plus what it earns in t2 - t1; urgent and force grants also count against msg |
| `RateLimit.RefusedOnlyAfterFullMinute` | src/broker/ratelimit.ts:48-76 | a refused check means its own or the msg bucket was charged its full capacity within the last minute |
| `RateLimit.BackwardClockBreaksBound` | src/broker/ratelimit.ts:48-55 | a clock that jumps ahead and back lets twice the capacity through in one millisecond |
| `Mailbox.PartitionExpired` | src/broker/mailbox.ts:10-27 | one queue is split at the age limit, the expired part is counted and returned |
| `Mailbox.EnqueueMailbox` | src/broker/mailbox.ts:34-51 | the new box and the returned drops are those of the specification: expired entries first, then evictions from the front |
| `Mailbox.PurgeAllExpired` | src/broker/mailbox.ts:54-64 | every queue is expired once, in some order, and everything dropped is returned |
| `Mailbox.FlushMailbox` | src/broker/mailbox.ts:75-92 | the queue is emptied, its unexpired part handed out and counted, the rest returned as dropped |
| `Mailbox.MailboxSize` | src/broker/mailbox.ts:66-68 | the answer is the unexpired length; expired entries are counted as dropped and gone |
| `Mailbox.Conservation` | src/broker/mailbox.ts:10-92 | over every interleaving and clock, what ever entered a queue is what is still queued, was delivered, was returned as dropped or was discarded by a size query, each once |
| `Mailbox.CountersBalance` | src/broker/mailbox.ts:10-92 | the two counters plus all queue lengths equal the number of messages ever enqueued |
| `Mailbox.SilentLossOnlyBySizeQuery` | src/broker/mailbox.ts:66-68 | an entry vanishes without being returned exactly when a size query met an expired entry |
| `Mailbox.SizeQueryLoses` | src/broker/mailbox.ts:66-68 | a run in which a size query makes an expired entry vanish: neither delivered nor returned as dropped |
| `Mailbox.FirstInFirstOut` | src/broker/mailbox.ts:10-92 | under a non-decreasing clock every queue is sorted by age and within its cap, and entries leave in the order in which they entered |
| `Mailbox.EnqueueCutsInOrder` | src/broker/mailbox.ts:34-51 | an enqueue cuts queue plus new message into a dropped prefix and a kept suffix within the cap, which holds the new one exactly when the cap is positive |
| `Mailbox.NewestSurvives` | src/broker/mailbox.ts:34-51 | right after an enqueue the queue ends with the new message exactly when the cap is positive; no other queue changes |
| `Mailbox.ExpiresIff` | src/broker/mailbox.ts:10-27 | an entry is expired exactly if it is older than the limit |
| `Mailbox.ExpiryTakesPrefix` | src/broker/mailbox.ts:10-27 | in a sorted queue expiry removes a prefix and keeps the rest in order |
| `Mailbox.PurgeExpiresEveryQueue` | src/broker/mailbox.ts:54-64 | a purge leaves each visited queue with exactly its unexpired entries, whatever the order of the visit |
| `Rooms.JoinRoom` | src/broker/rooms.ts:13-37 | both sides and the verdict after a join are those of the specification |
| `Rooms.LeaveRoom` | src/broker/rooms.ts:45-54 | both sides after a leave, an emptied room disappears, and not being in the room is an error |
| `Rooms.DetachFromRooms` | src/broker/rooms.ts:95-106 | the alias is out of every room of its record, on both sides, and out of no other |
| `Rooms.JoinExtends` | src/broker/rooms.ts:13-37 | a join succeeds exactly if the name is valid and the peer is in the room already or both caps leave a place; a refusal changes nothing |
| `Rooms.JoinAllResult` | src/broker/broker.ts:316-335 | joining a list of rooms only extends the tables, and on success adds exactly the requested rooms with their roles |
| `Rooms.JoinAllSucceedsIff` | src/broker/broker.ts:316-335 | a new record gets all its rooms exactly if each is well named and has a place and there are not too many |
| `Rooms.JoinAllJoinsPrefix` | src/broker/broker.ts:316-335 | whether it succeeds or not, the loop of a hello joins exactly the longest prefix of the requested rooms that are well named, have a place and fit the cap |
| `Rooms.EnrollExactIff` | src/broker/broker.ts:275-335 | a hello over an exact index leaves it exact if and only if the rooms of the replaced record lie in the longest joinable prefix of the rooms it asks for |
| `Rooms.EnrollKeepsAgree` | src/broker/broker.ts:275-335 | a hello, accepted or refused, keeps the index agreement |
| `Rooms.LeaveKeepsAgree` | src/broker/rooms.ts:45-54 | a leave keeps the index agreement |
| `Rooms.CloseKeepsAgree` | src/broker/broker.ts:1138-1148 | closing a peer keeps the index agreement |
| `Policy.MatchIsFit` | src/broker/policy.ts:32-36 | a pattern matches exactly the equal value, or with a final star every extension of its stem |
| `Policy.DecisionIff` | src/broker/policy.ts:38-120 | the decision in terms of sender, recipient, room and rules: denied exactly if a deny rule concerns them, or no allow rule does, or force is neither authorized nor downgraded; downgraded and allowed likewise |
| `Policy.DenyIsMonotone` | src/broker/policy.ts:109-120 | more deny rules never admit more, and only unauthorized force is downgraded |
| `Governance.DeniedSenderIsSilenced` | src/broker/broker.ts:467-484 | in every run nothing gets through of what a sender sends whom a deny rule names for all recipients and rooms: one error, no write, no mailbox entry, no control |
| `Governance.DenyRuleSparesOthers` | src/broker/policy.ts:109-112 | a deny rule that does not name the sender of a step as sender changes nothing about that step, even if the message is for the alias it names |
| `Governance.DenyRuleSparesRuns` | src/broker/policy.ts:109-112 | a run in which nobody sends whom the rule names goes, with all its answers, as without it |
| `Governance.WritesAreAdmitted` | src/broker/broker.ts:475-496 | in every run each outstanding write is admitted by the rules from its sender to its recipient in its room, and carries force only from an authorized sender or as a broadcast |
| `Governance.ControlAcceptedIff` | src/broker/broker.ts:631-693 | a control frame is written to its target exactly if both are in the room, the rules admit it, an `abort` or `redirect` comes from an alias that may use force, and its buckets hold a token: msg, and force for these two actions only; those are charged |
| `Governance.ControlsAreAuthorized` | src/broker/broker.ts:662-675 | in every run each control frame on its way is admitted by the rules, and an `abort` or `redirect` is authorized |
| `Refusals.WhyRefused` | src/broker/broker.ts:361-588 | why a message is refused: each error code is answered if and only if its reason applies, on all three routes |
| `Refusals.WhyControlRefused` | src/broker/broker.ts:631-680 | the same for control frames |
| `Refusals.WhyHelloRefused` | src/broker/broker.ts:258-335 | the same for hellos |
| `CapRouting.FindTarget` | src/broker/broker.ts:535-572 | the scan and the sort, in whatever order the host puts aliases, pick the specified choice or error |
| `CapRouting.ChoiceIsEligible` | src/broker/broker.ts:535-575 | somebody is chosen exactly if an eligible member exists, and is one; `denied` and `caps_unsupported` each exactly under their condition on the members |
| `CapRouting.ChoiceIsOptimal` | src/broker/broker.ts:535-575 | the chosen member is least by busy score and then alias among all eligible members, for every order of aliases a host may sort by |
| `CapRouting.IdleBeatsBusy` | src/broker/broker.ts:535-578 | for every such order an idle eligible member beats every busy one, and the second policy check never denies the chosen peer |
| `CapRouting.ChoicePrefersFree` | src/broker/broker.ts:535-575 | a busy member is chosen only if no eligible one is idle and none has been busy for less time; a stalled one only if all eligible ones are stalled |
| `CapRouting.CodePointIsOrder` | src/broker/broker.ts:573-575 | comparing by code point is one such order |
| `CapTargets.CapTargetIff` | src/protocol/task-package.ts:106-111 | a target names a capability if and only if that is well formed and the target is "cap:" followed by it, in any case and with any padding |
| `CapTargets.TargetIsFound` | src/protocol/task-package.ts:106-111 | for every well-formed name, every case and every padding, the target names exactly it |
| `CapTargets.GrammarsAre` | src/shared/config.ts:144-253 | the characters and lengths of room and capability names, listed |
| `CapTargets.CapMessageGoesToBest` | src/broker/broker.ts:521-588 | a message to a capability is refused, or written to the least busy eligible member of its room with `routedCap` and `routedTo`, exactly according to role, rate and whether there is one |
| `Scenarios.ReviewIsAcknowledged` | src/broker/broker.ts:588-600 | a run in which a message to " Cap: REVIEW" is written to the member that advertises it and acknowledged with `routedTo` |
| `Lease.LeaseTable.Prune` | src/broker/lease.ts:68-72 | exactly the live leases remain |
| `Lease.LeaseTable.Get` | src/broker/lease.ts:74-82 | the live lease of the task, an expired one is removed |
| `Lease.LeaseTable.Claim` | src/broker/lease.ts:84-108 | the table and the outcome (granted, reused, held, invalid) of the specification |
| `Lease.LeaseTable.Release` | src/broker/lease.ts:110-116 | only the holder with the right lease id releases, and the lease is returned |
| `Lease.LeaseTable.Verify` | src/broker/lease.ts:124-127 | the verdict on task, owner, epoch and fence |
| `Lease.FenceHoldsExactlyWhileLeased` | src/broker/lease.ts:74-127 | after a grant, its epoch and fence are verified for its owner if and only if the lease has neither expired nor been released |
| `Lease.DeadFenceIsRefused` | src/broker/lease.ts:74-127 | once released or expired, a lease's epoch and fence are accepted for nobody, ever |
| `Lease.FreshGrantNeedsFreeTask` | src/broker/lease.ts:84-108 | a fresh grant of a task after an earlier one happens only when the earlier lease was released or has expired |
| `Lease.LiveLeaseAnswersClaims` | src/broker/lease.ts:84-108 | while a lease is live, its owner's claim returns that very lease and anybody else is told who holds it |
| `Lease.LeaseLife` | src/broker/lease.ts:64-127 | a granted lease is in the table until it is released or expires, and dead from then on |
| `LeaseClaims.ClaimIsInvalidIff` | src/broker/lease.ts:84-89 | a claim is invalid exactly if it names no task or no paths or asks for less than a second or more than a day |
| `LeaseClaims.FreshGrantIsTheClaim` | src/broker/lease.ts:96-107 | a fresh grant carries task, owner, paths and lease id of the claim and expires after exactly the time it asked for |
| `LeaseClaims.FreshGrantIff` | src/broker/lease.ts:84-116 | in every run a valid claim is granted freshly if and only if no earlier fresh grant of its task is in force: neither past the time its claimant asked for nor given back by it |
| `LeaseClaims.ClaimWhileLeased` | src/broker/lease.ts:90-95 | while a grant is in force its claimant gets it again and everybody else is told who holds it |
| `LeaseClaims.StampHoldsAsClaimed` | src/broker/lease.ts:96-127 | the stamp of a grant is verified, for its claimant and task only, exactly until the time asked for unless given back |
| `Lease.StateDir.NextEpoch` | src/broker/lease.ts:43-53 | the next epoch exceeds the stored one and is not below the clock; a write that fails leaves the old number, nothing readable or some smaller one |
| `Lease.EpochsIncreaseIff` | src/broker/lease.ts:31-53 | epochs grow strictly over all restarts, whatever the clock does, if and only if each restart finds the previous epoch on disk or a clock beyond it |
| `Lease.FencesIncreaseAcrossRestarts` | src/broker/lease.ts:31-108 | over any sequence of broker lifetimes with safe restarts, the (epoch, fence) pairs of all fresh grants increase strictly |
| `Lease.OldEpochIsRefused` | src/broker/lease.ts:43-127 | a stamp of an earlier lifetime is refused by every later one |
| `Lease.UnsafeRestartReissuesStamp` | src/broker/lease.ts:43-53 | an epoch write that fails and a clock that stands still issue the same stamp twice |
| `LeaseTrailer.TrailerRoundTrip` | src/shared/lease-trailer.ts:14-27 | a printed trailer is read back from a commit message, after any other lines, with any trailing blanks and any further lines |
| `LeaseTrailer.RoundTripIffWellFormed` | src/shared/lease-trailer.ts:14-27 | printing then parsing returns the same reference if and only if it is well formed |
| `LeaseTrailer.ParsedIsWellFormed` | src/shared/lease-trailer.ts:18-27 | whatever is parsed is well formed |
| `LeaseTrailer.WellFormedIff` | src/shared/lease-trailer.ts:18-19 | the references a trailer can carry, characters and sizes listed |
| `LeaseTrailer.TrailerExample` | src/shared/lease-trailer.ts:14-16 | one trailer, spelled out |
| `LeaseTrailer.VerdictOkIff` | src/cli/cmd/lease.ts:21-28 | the verdict on a commit is ok exactly when its trailer names lease id, epoch and fence of the live lease of its task |
| `LeaseTrailer.TrailerAcceptedExactlyWhileLeased` | src/broker/broker.ts:1030-1047 | a commit carrying the trailer of a granted lease is accepted exactly while that lease is neither released nor expired |
| `LeaseTrailer.OldTrailerIsStale` | src/client/client.ts:2333-2352 | no trailer of an earlier broker lifetime is accepted after a safe restart |
| `Frames.FrameDecoder.Push` | src/protocol/frames.ts:48-68 | the lines returned, the error and the buffer kept are those of draining the old buffer plus the decoded chunk, given as text or as bytes |
| `Frames.ChunkingDoesNotMatter` | src/protocol/frames.ts:41-69 | a text cut anywhere between code points gives the same lines, the same rest and a size error in the same cases as the whole text |
| `Frames.FramesRoundTrip` | src/protocol/frames.ts:28-69 | the text of encoded frames, cut anywhere between code points, decodes to exactly the original lines without error |
| `Frames.PartialStreamDecodesPrefix` | src/protocol/frames.ts:41-69 | while such a text is still arriving, what was decoded is a prefix of the frames |
| `Frames.ByteChunkingIff` | src/protocol/frames.ts:48-69 | for bytes cut anywhere: the outcome is that of the whole text if no buffer begins inside a code point, and is never that outcome otherwise (short of a size error) |
| `Frames.FramesRoundTripIff` | src/protocol/frames.ts:28-69 | encoded frames, as bytes cut anywhere, decode to the original lines if and only if no buffer begins inside a code point |
| `Frames.SplitCodePoint` | src/protocol/frames.ts:48-49 | a frame whose two-byte letter arrives in two buffers is decoded with two replacement characters |
| `Frames.ByteLengthIsEncoded` | src/protocol/frames.ts:29-33 | the length the size limit is checked against is the number of encoded bytes |
| `Frames.BufferIsItsLines` | src/protocol/frames.ts:48-68 | a buffer decodes to its non-empty lines and its end, or to a size error exactly if one of them takes more bytes than the limit |
| `Utf8.DecodedRightIff` | src/protocol/frames.ts:49-49 | buffers decoded one by one give the encoded text if and only if none begins inside a code point; otherwise the result has more replacement characters than the text |
| `Utf8.CharRoundTrip` | src/protocol/frames.ts:29-30 | every code point is encoded as a well-formed sequence that decodes to it |
| `Batcher.InboundBatcher.Push` | src/extension/batcher.ts:110-116 | the frame is appended and a timer armed if none is and the window is positive |
| `Batcher.InboundBatcher.OnWindow` | src/extension/batcher.ts:124-136 | flush unless busy without urgent, then hold with the fallback timer |
| `Batcher.InboundBatcher.FlushNow` | src/extension/batcher.ts:139-152 | everything held is flushed in order and both timers are cleared |
| `Batcher.LosesNothing` | src/extension/batcher.ts:98-157 | the flushed batches followed by what is held are exactly the pushed frames |
| `Batcher.WindowDecides` | src/extension/batcher.ts:124-136 | when the window elapses everything held is flushed if the agent is idle or an urgent message is held, and nothing otherwise |
| `Batcher.HeldFramesHaveTimer` | src/extension/batcher.ts:110-152 | a timer is armed exactly when frames are held and the window is positive |
| `Batcher.FlushedInTime` | src/extension/batcher.ts:98-157 | with a positive window and timers on time, a pushed frame is in a batch before anything happens later than the window plus the maximal hold after its push, whatever the busy signal says |
| `Batcher.NothingHeldIsOld` | src/extension/batcher.ts:110-152 | no frame that is held or just flushed is older than the window plus the maximal hold |
| `ProjectRoom.SlugifyIsSlug` | src/shared/project-room.ts:39-48 | every slug is letters and digits with single dashes between, within its length |
| `ProjectRoom.SlugifyIdempotent` | src/shared/project-room.ts:39-48 | slugifying twice changes nothing |
| `Slugs.SlugIsOfItsWords` | src/shared/project-room.ts:39-48 | the slug of a name is its words with exactly one dash between each and the next, whatever stands between and around them, cut to 24 characters without a dash at the end |
| `Slugs.EveryNameReads` | src/shared/project-room.ts:39-48 | every name that has a letter or digit consists of such words |
| `Slugs.WordlessSlug` | src/shared/project-room.ts:47-47 | any other name becomes "x" |
| `Slugs.MyProject` | src/shared/project-room.ts:87-91 | one derived room, spelled out |
| `ProjectRoom.DerivedRoomIsValid` | src/shared/project-room.ts:87-91 | every derived room name satisfies the room grammar |
| `ProjectRoom.DerivedStaleIffSameSlug` | src/shared/project-room.ts:114-118 | a derived room is dropped as stale by another project exactly when both have the same slug |
| `ProjectRoom.SameNameDropsRoom` | src/shared/project-room.ts:114-118 | two projects of one name: the scope of the second drops the room derived for the first |
| `ProjectRoom.ResolveRoomScope` | src/shared/project-room.ts:142-218 | the loop computes the specified rooms, broadcast room and degradation |
| `ProjectRoom.SendRoomIff` | src/client/client.ts:1469-1481 | which room an untargeted send uses |
| `ProjectRoom.ScopeAgreesIff` | src/client/client.ts:1469-1493 | for all arguments: the reported broadcast room is one of the rooms and the one an untargeted send uses, if and only if the scope is legacy or pinned or the cap leaves a room |
| `ProjectRoom.CapHoldsIff` | src/shared/project-room.ts:190-218 | otherwise the cap holds if and only if it is at least one, or zero with no room left |
| `ProjectRoom.RoomSurvivesIff` | src/shared/project-room.ts:142-218 | for all arguments, exactly which rooms are returned: past the cap the project room goes first, then the default room unless there is a place, then the later ones |
| `ProjectRoom.ScopeAgreesWithSending` | src/client/client.ts:1469-1493 | for duplicate-free rooms and a cap of at least one, scope and sending agree; in project and both modes the cap holds |
| `ProjectRoom.DuplicatesBreakScope` | src/shared/project-room.ts:142-218 | with a repeated project room the reported broadcast room is not one of the rooms |
| `ProjectRoom.ZeroCapBreaksScope` | src/shared/project-room.ts:142-218 | with a cap of zero no room is returned but one is reported |
| `Pending.PendingReplies.RegisterReply` | src/client/pending.ts:38-71 | an older registration of the id is superseded, reminders at a half and three quarters and the deadline are armed |
| `Pending.PendingReplies.HandleReplyFrame` | src/client/pending.ts:80-95 | a reply to a live id settles it and disarms its timers, any other is counted |
| `Pending.PendingReplies.CancelOne` | src/client/pending.ts:101-107 | a live id is settled with the reason, another is left alone |
| `Pending.PendingReplies.CancelEvery` | src/client/pending.ts:110-112 | every live id is settled once |
| `Pending.ExactlyOnceSettlement` | src/client/pending.ts:38-112 | in every run each registration is live or has been settled exactly once, and reminds at most twice |
| `Pending.SilentAfterSettlement` | src/client/pending.ts:38-112 | after its settlement nothing happens to a registration |
| `Pending.EventsRespectDeadline` | src/client/pending.ts:49-68 | in every run with timers on time: reminders of a registration come strictly before its deadline, its settlement no later, its expiry exactly then, and past the deadline it has been settled |
| `Reminders.RemindersComeInTime` | src/client/pending.ts:49-62 | in every run with timers on time a registration reminds exactly when half and when three quarters of its time have passed, once each, while it is awaited |
| `Pending.SettledIdSeesOrphans` | src/client/pending.ts:80-95 | until it is registered again, every reply to a settled id is an orphan |
| `Replies.ReplyDesk.OnReply` | src/client/client.ts:1249-1314 | the path taken and the new memory are those of the specification |
| `Replies.DroppedIffRecentlyConsumed` | src/client/client.ts:858-881 | an unawaited answer is dropped if and only if the same answer was consumed within the window |
| `Replies.ConsumedOncePerWindow` | src/client/client.ts:1249-1314 | with fresh message ids, the same answer is consumed at most once in any 30 minutes, however replies, expiries and re-sends interleave |
| `Replies.WokenIff` | src/client/client.ts:1265-1294 | an awaited answer wakes the session exactly if its message was last registered as launched and nobody waits for all launched ones |
| `Replies.ReusedIdIsConsumedTwice` | src/client/client.ts:1267-1311 | without fresh ids the same answer is consumed twice |
| `Server.Server.NotifyDropped` | src/broker/broker.ts:172-181 | one receipt per dropped entry whose original sender is online |
| `Server.Server.ClosePeer` | src/broker/broker.ts:1138-1148 | the record is gone from both sides and its socket destroyed |
| `Server.Server.CloseIfCurrent` | src/broker/broker.ts:138-147 | a record is closed after a failed write only if it has not been replaced |
| `Server.Server.Admit` | src/broker/broker.ts:308-335 | joins the requested rooms one by one; a refusal undoes the record |
| `Server.Server.Greet` | src/broker/broker.ts:337-351 | flushes the mailbox and welcomes exactly as specified |
| `Server.Server.SendMail` | src/broker/broker.ts:351-351 | each flushed entry becomes one outstanding write, in order |
| `Server.Server.MailDone` | src/broker/broker.ts:138-147 | a mailbox entry whose write fails closes its connection if that is still current, and is gone |
| `Server.Server.HandleHello` | src/broker/broker.ts:258-355 | the handler does exactly the hello step of the protocol |
| `Server.Server.FanOut` | src/broker/broker.ts:391-420 | the loop over the members issues the writes, fills the mailboxes and counts as specified |
| `Server.Server.RouteBroadcast` | src/broker/broker.ts:361-429 | the broadcast step |
| `Server.Server.RouteDirect` | src/broker/broker.ts:454-516 | the directed step |
| `Server.Server.RouteCap` | src/broker/broker.ts:521-588 | the capability-routed step |
| `Server.Server.RouteMsg` | src/broker/broker.ts:357-516 | numbering, sender gates and choice of route |
| `Server.Server.DirectDone` | src/broker/broker.ts:499-509 | the write callback: acknowledge delivery, or close, queue and acknowledge that |
| `Server.Server.FanDone` | src/broker/broker.ts:403-427 | one broadcast write done; the last one sends the receipt |
| `Server.Server.PrunePending` | src/broker/broker.ts:679-682 | exactly the unexpired pending control entries remain |
| `Server.Server.HandleCtl` | src/broker/broker.ts:631-693 | the control step with all its gates |
| `Server.Server.CtlDone` | src/broker/broker.ts:684-692 | the control write callback |
| `Server.Server.HandleCtlAck` | src/broker/broker.ts:697-712 | the acknowledgement step |
| `Server.Server.Dispatch` | src/broker/broker.ts:714-860 | authentication and dispatch of the modelled frames |
| `Server.Server.SocketClosed` | src/broker/broker.ts:929-937 | every record on the socket is closed, in some order |
| `Server.Server.PruneKnownAliases` | src/broker/broker.ts:1126-1135 | exactly the aliases with a connection, mail or a recent hello stay known |
| `Server.Server.SweepReservations` | src/broker/broker.ts:972-986 | exactly the reservations within their lifetime stay |
| `Server.Server.PurgeMailboxExpired` | src/broker/broker.ts:1073-1075 | the purge step with its receipts |
| `Server.Server.constructor` | src/broker/broker.ts:113-136 | a new broker is in the initial state, with no event behind it |
| `Server.Server.OnAccept` | src/broker/broker.ts:881-885 | the state stays that of the run of all events so far, here a new connection |
| `Server.Server.OnFrame` | src/broker/broker.ts:894-919 | the same for a frame that arrives; the answers are those of that step of the run |
| `Server.Server.OnWriteDone` | src/broker/broker.ts:499-509 | the same for the outcome of a directed write |
| `Server.Server.OnFanWriteDone` | src/broker/broker.ts:403-427 | the same for the outcome of a broadcast write |
| `Server.Server.OnCtlWriteDone` | src/broker/broker.ts:684-692 | the same for the outcome of a control write |
| `Server.Server.OnMailWriteDone` | src/broker/broker.ts:138-147 | the same for the outcome of the write of a mailbox entry |
| `Server.Server.OnSendFailed` | src/broker/broker.ts:138-147 | the same for a failed write of any other frame |
| `Server.Server.OnDestroy` | src/broker/broker.ts:887-892 | the same for a socket destroyed by a timer, the sweep or an error |
| `Server.Server.OnSocketClosed` | src/broker/broker.ts:929-937 | the same for a closed socket, the records being closed in some order |
| `Server.Server.OnPrune` | src/broker/broker.ts:969-971 | the same for the pruning of known aliases |
| `Server.Server.OnSweep` | src/broker/broker.ts:972-986 | the same for the lapse of reservations |
| `Server.Server.OnPurge` | src/broker/broker.ts:1073-1075 | the same for a mailbox purge, the queues being visited in some order |
| `Server.TablesAgree` | src/broker/rooms.ts:13-106 | the two room tables of every broker object agree, after whatever events |
| `Connections.ImpostorChangesNothing` | src/broker/broker.ts:714-735 | a frame that does not arrive on the connection of the alias it names changes nothing |
| `Connections.WelcomeNeedsToken` | src/broker/broker.ts:258-275 | in every run no hello without the broker's token is welcomed on a connection that needs it |
| `Connections.WelcomedRecord` | src/broker/broker.ts:283-307 | what the record of a welcomed peer holds; capabilities count from protocol version 2 on |
| `Connections.WelcomedRoles` | src/broker/broker.ts:315-328 | its rooms are those requested, or "default" if none are named; the role is the one for the room, else the one for all, else member |
| `Connections.JoinRequestIsAnswered` | src/broker/rooms.ts:13-37 | exactly when a join request is granted, and the role it gives; a refused one changes nothing |
| `Connections.ReportIsRemembered` | src/broker/broker.ts:714-860 | an activity report or reservation request replaces just that in the sender's record |
| `Connections.FailureClosesItsRecordOnly` | src/broker/broker.ts:138-147 | a failed write closes the record it was addressed to, with its rooms and connection, if that is still the one of its alias, and no record otherwise; a successful one closes none |
| `Connections.NewRecordOutlivesOldWrites` | src/broker/broker.ts:138-147 | in every run no write that was outstanding when an alias said hello again can close its new record |
| `Connections.PruneForgetsIff` | src/broker/broker.ts:1126-1135 | pruning forgets exactly the aliases without record and mail whose last hello is over a day old |
| `Connections.SweepTakesIff` | src/broker/broker.ts:972-986 | a sweep takes exactly the reservations older than the configured age |
| `Routing.ForceIsAuthorized` | src/broker/broker.ts:476-494 | on the directed and capability routes force arrives as force exactly for authorized senders, otherwise as urgent without interrupt, and the receipt tells which; for broadcasts see the next two rows |
| `Routing.BroadcastForceIff` | src/broker/broker.ts:361-429 | a broadcast with force from a sender who is not authorized is accepted, as it is, if and only if `forceDowngrade` is set and membership, rate, room and rules let it through |
| `Routing.BroadcastIsForwardedAsIs` | src/broker/broker.ts:385-420 | every copy of an accepted broadcast, written or queued, is the frame as it came, force included |
| `Routing.FanOutSummary` | src/broker/broker.ts:391-420 | every member but the sender is counted once and is written to, or offline with the broadcast last in its mailbox, or beyond reach; no other mailbox changes |
| `Routing.RouteMsgRouted` | src/broker/broker.ts:357-600 | a submitted message is refused, mailed, sent to one online member of its room, or fanned out, and nothing else changes |
| `Routing.MessageAcceptedIff` | src/broker/broker.ts:357-588 | a message is accepted if and only if its sender may write to the room, the rate check grants it and there is a recipient the policy lets it reach; on the capability route that is any eligible member |
| `Routing.RefusedAndChargedIff` | src/broker/broker.ts:357-588 | a message is charged by exactly one check if it comes as far as the check and by none otherwise; granted by it, it is refused if and only if no recipient can be given it |
| `Membership.HelloMailbox` | src/broker/broker.ts:258-351 | a hello is accepted exactly when acceptable; a refused one leaves every mailbox untouched, an accepted one hands over exactly the unexpired entries in order |
| `Membership.MailboxOutsAre` | src/broker/broker.ts:351-351 | the mailbox frames follow the welcome one by one, in queue order |
| `Membership.HelloRooms` | src/broker/broker.ts:283-335 | an accepted hello leaves exactly the rooms and roles it asked for |
| `Membership.RunAgrees` | src/broker/rooms.ts:13-106 | after every run each live record's rooms list it, no room is empty or over 64 members, no record exceeds its room cap |
| `Membership.StepExactIff` | src/broker/broker.ts:275-335 | from an exact index every step leads to an exact one, except precisely a hello over a destroyed connection whose rooms are not in the longest joinable prefix of those it asks for |
| `Membership.AcceptableForgets` | src/broker/broker.ts:275-335 | for an acceptable hello that prefix is all it asks for, so it forgets exactly the rooms it does not mention |
| `Membership.RunExact` | src/broker/broker.ts:275-335 | in a run without such a hello the two sides are exact inverses throughout |
| `Membership.ForgottenRoomKeepsMember` | src/broker/broker.ts:281-335 | a room an accepted hello does not ask for keeps listing the alias |
| `Membership.ReplacementLeavesGhost` | src/broker/broker.ts:275-281 | a three-step run that ends with a member listed in a room it is not in |
| `Scenarios.ForceIsBroadcast` | src/broker/broker.ts:385-390 | a run in which force from an unauthorized sender is written as force to the other peer |
| `Scenarios.DeniedIsCharged` | src/broker/broker.ts:467-484 | a run in which a message that is refused as denied has cost its sender a token |
| `Scenarios.QueuedButNotKept` | src/broker/mailbox.ts:34-51 | a run with a mailbox cap of zero: `queued_offline` is acknowledged and the queue is empty |
| `Scenarios.MailIsLost` | src/broker/broker.ts:337-351 | a run in which a queued entry is handed to a connection that breaks: it is in no queue, not dropped, and nobody is told |
| `Membership.ConnectedIsKnown` | src/broker/broker.ts:1126-1135 | in every run a connected alias is known |
| `Outcomes.DirectStep` | src/broker/broker.ts:499-509 | the completion of a directed write gives one acknowledgement; on failure the frame goes into the recipient's mailbox |
| `Outcomes.FanStep` | src/broker/broker.ts:403-427 | a broadcast completion moves one recipient on, and only the last one answers |
| `Outcomes.ExactlyOneAnswer` | src/broker/broker.ts:79-111 | in every run each submitted message either waits for a write or has been answered exactly once, never both |
| `Outcomes.NumbersAreUnique` | src/broker/broker.ts:357-360 | different submissions are told apart |
| `Honesty.WritesHaveOrigin` | src/broker/broker.ts:357-600 | every outstanding write belongs to one submission, carries its message to a peer that was online in its room, and keeps a correct account |
| `Honesty.AnswersReachTheSender` | src/broker/broker.ts:149-164 | every answer goes to the connection and carries the id of a message submitted there |
| `Honesty.RefusalIsInert` | src/broker/broker.ts:361-484 | a refused message changes no queue, no write and no connection |
| `Honesty.DirectedAcksAreHonest` | src/broker/broker.ts:496-516 | in every run `delivered` means the write of exactly this message to its recipient just succeeded, `queued_offline` that it is last in the recipient's mailbox |
| `Honesty.BroadcastReceiptsAreHonest` | src/broker/broker.ts:391-427 | the total is the room without the sender, the delivered count is the number of successful writes, and with the mailbox copies and those beyond reach it adds up |
| `Honesty.BroadcastsAddUp` | src/broker/broker.ts:391-427 | if no hello forgot a room before, delivered and mailbox copies together are the room without the sender |
| `Control.AcksAnswerAcceptedControls` | src/broker/broker.ts:631-712 | in every run a relayed acknowledgement goes to the alias that earlier sent a control frame with that id, target and action which passed membership, role, policy and rate gates, and comes from that target |
| `Control.NoMoreAcksThanControls` | src/broker/broker.ts:683-712 | relayed acknowledgements for an id, plus a pending entry, never outnumber the accepted control frames with that id |
| `Acks.AckRelayedIff` | src/broker/broker.ts:676-712 | in every run an acknowledgement is relayed if and only if it comes from the target of an accepted control frame, names its id, sender and action, its sender is online and it is still awaited: since then no control frame came under that id, none at all after a minute, its write did not fail and it was not acknowledged |
| `Acks.PendingIsAwaited` | src/broker/broker.ts:676-692 | whatever the broker waits for was accepted and not cleared since |
| `Acks.AwaitedIsPending` | src/broker/broker.ts:676-692 | and conversely |
| `Throughput.RatesComeFromCalls` | src/broker/ratelimit.ts:24-35 | the rate table of a run is that of its checks alone; no hello or close touches it |
| `Throughput.BrokerRateBound` | src/broker/ratelimit.ts:24-76 | what one alias gets through in a window is within capacity plus earnings, however often it reconnects |
| `Budgets.PriorityBudgets` | src/broker/ratelimit.ts:24-76 | counted by what frames claim, in every run: force messages, aborts and redirects within forcePerMin, urgent messages within urgentPerMin, all frames within msgPerMin, each at once plus per minute |
| `Budgets.LimitedMeansSpent` | src/broker/broker.ts:467-474 | `rate_limited` means that in the last minute the alias paid for msgPerMin frames, or for forcePerMin or urgentPerMin ones of the kind the frame claims |
| `Throughput.LimitedOnlyAfterFullMinute` | src/broker/broker.ts:467-474 | `rate_limited` is answered only when a bucket was charged its capacity within the last minute |
| `Postbox.StepPosted` | src/broker/broker.ts:165-181 | every step does exactly its mailbox steps and sends exactly one receipt for each dropped entry whose sender is online |
| `Postbox.BrokerRunsMailbox` | src/broker/mailbox.ts:10-92 | the mailboxes of every broker run are those of a mailbox run |
| `Postbox.BrokerConservesMail` | src/broker/mailbox.ts:10-92 | in every broker run each entry that entered a mailbox is, once, in it, on its way, arrived, dropped, or lost on its way with its connection; and the counters add up |
| `Postbox.DeliveredIsInFlightOrLanded` | src/broker/broker.ts:337-351 | what the mailbox counts as delivered is on its way, has arrived or was lost with its connection |
| `Postbox.NoticesTellTheDrops` | src/broker/broker.ts:165-181 | in every run a drop notice goes out in a step exactly for an entry dropped in it whose sender is then online |
| `Postbox.DropsHappenInSteps` | src/broker/broker.ts:165-181 | every entry the ledger calls dropped was dropped by some step of the run |
| `Postbox.FailedMailIsSilent` | src/broker/broker.ts:138-147 | an entry whose write fails is queued nowhere again, and nobody is told |
| `Client.MeshClient.constructor` | src/client/client.ts:463-475 | initial rooms without repetition, each as member |
| `Client.MeshClient.BuildHello` | src/client/client.ts:1016-1037 | rooms always, roles for observer rooms only, reservations if any |
| `Client.MeshClient.Join` | src/client/client.ts:1993-2000 | room and role are remembered only on an acknowledgement |
| `Client.MeshClient.Leave` | src/client/client.ts:2002-2015 | the room is dropped on an acknowledgement, and on `not_member` |
| `Client.MeshClient.ForgetRoom` | src/client/client.ts:2023-2026 | local drop of room and role |
| `Client.MeshClient.Reserved` | src/client/client.ts:1911-1952 | own reservations change only on an acknowledgement |
| `Client.ReHelloRebuilds` | src/broker/broker.ts:258-335 | from any broker state a welcomed hello leaves exactly the client's rooms with their roles and its reservations; it is welcomed exactly when acceptable |
| `Client.RestartedBrokerWelcomes` | src/client/client.ts:1016-1037 | a restarted broker welcomes the client if and only if its rooms are well named and within the cap and a needed token fits |
| `Client.RequestStaysInSync` | src/client/client.ts:1993-2015 | an answered join, leave or reserve keeps client and broker in agreement, whether it succeeded or not |
| `Client.ClientAndBrokerAgree` | src/client/client.ts:1016-1056 | over every interleaving of hellos, welcomes, restarts, requests, lost answers, local changes and other peers' steps, client and current record hold the same rooms and roles unless an answer was lost or a room was dropped behind the broker's back since the hello |
| `Client.ForgottenMidHandshake` | src/client/client.ts:2023-2026 | a room forgotten between hello and welcome leaves both sides equal if and only if the hello did not declare it; otherwise the broker keeps the client in it |
| `Client.HandshakeRace` | src/extension-opencode/register-commands.ts:130-134 | a run in which a room left locally is still joined at the broker once online |
| `Client.ObserverStaysObserver` | src/client/client.ts:448-451 | a room joined as observer is never one the broker lets the client write to |

## Left out

- Sockets, TLS, process start-up, locks, the silence and handshake timers: any socket may be destroyed at any time.
- Frame validation and the other field checks of the envelope: frames are taken as valid.
- Presence, activity and reservation broadcasts, status answers, read receipts, reminders and the statistics counters other than the mailbox's.
- Server.Server.Dispatch: of a reply only the rate charge is modelled, not where it is routed; claim, release, lease status, ping and status frames are not dispatched (the lease table itself is in `Lease`).
- Server.Server.RouteBroadcast: the receipt of a broadcast nobody is online for is given at once instead of one microtask later.
- Client.MeshClient.Join: a request and the handling of its answer are one step; an answer that never arrives or comes too late is the separate move `AskLost`.
- Client.MeshClient.Reserved: merging patterns into the list of reservations is not modelled, only the adoption of the merged list.
- Frames.FramesRoundTripIff: the bytes are those of a text; streams that are no UTF-8 to begin with are not considered.
- LeaseTrailer.TrailerRoundTrip: numbers are exact; rounding of numbers beyond 2^53 is outside the well-formed references.
- Lease.LeaseTable.Claim: times are milliseconds; the order of the lease listing is not modelled.
- Pending.EventsRespectDeadline: timers are exact; the one-millisecond minimum and the maximum of the host's timers are not modelled.
- Replies.ReplyDesk.OnReply: the inbox, waking a session and the status of awaited missions are not modelled.
- ProjectRoom.SlugifyIsSlug: names are lower-cased beforehand; file-system canonicalisation and the hash are parameters.
- The client's caches of other peers, the ledger, transcripts, the user interface and the command line around the fence verdict.
