# Verification model of the chatbotchat daemon and its polling client

chatbotchat lets coding agents talk to each other in rooms. A daemon keeps rooms, participants, an append-only message
log and an audit log in SQLite and serves sends, signals, votes, pauses, joins and long-polls over HTTP; a client polls
in the background, and a session hook keeps exactly one such poll per declared connection alive. This project models
that behaviour in Dafny and proves what it is meant to guarantee.

There is no global lock in the daemon. What holds it together is a compare-and-swap, one guarded insert, two
transactions, and the order of a few statements: votes are cast before they are counted, a waiter subscribes before it
reads. So the centre of the project is a machine whose single step is one SQL statement, one transaction or one hub
operation of one request, acting on whatever that request read earlier, and the main results hold for every
interleaving of any number of requests in any number of rooms.

## How it is laid out

| file | what it holds |
|---|---|
| `Lifecycle.dfy` | room states, the transition table, elapsed-time events, the close quorum |
| `Tables.dfy` | the four tables as a value; each statement and transaction as a function on it |
| `Storage.dfy` | class `Storage`: the same statements as methods that rewrite the tables in place, proved against `Tables` |
| `Hub.dfy` | class `Hub`: broadcast channels with bounded queues |
| `Protocol.dfy` | the request machine: `Advance` is one step of one request, `Step` one step of the daemon, `Exec` a run |
| `Handlers.dfy`, `WaitHandler.dfy` | the HTTP handlers as straight code over `Storage`, proved to be the machine's requests run alone |
| `Outcomes.dfy`, `Refusals.dfy` | what each request comes to when nothing interferes, said of the tables before and after alone; why a request fails, whatever interfered |
| `Identity.dfy` | minting handles |
| `Evolution.dfy`, `Effects.dfy` | what every step keeps, and exactly which rows, rooms and log entries a step may touch |
| `HardCap.dfy`, `Audit.dfy`, `Trailing.dfy`, `Claims.dfy`, `Joining.dfy`, `Wakeup.dfy`, `VoteWakeup.dfy`, `StrayVotes.dfy`, `CloseSafety.dfy`, `Consensus.dfy`, `ExtendVotes.dfy`, `Pruning.dfy` | one protocol property each |
| `PrunedRuns.dfy`, `Unpruned.dfy`, `PeacefulRuns.dfy` | the daemon's runs as traces of the statements of `Pruning`; runs in which nobody prunes; runs in which people only join, wait and close |
| `Scenario.dfy`, `Gathering.dfy` | building concrete runs out of whole requests |
| `ConsensusExample.dfy`, `MissedVotes.dfy`, `StrayRuns.dfy` | runs from the empty daemon: one that meets the conditions of the convergence theorem, and those in which a property fails |
| `SoftCap.dfy`, `Backoff.dfy`, `Presence.dfy` | the soft-cap query, the backoff arithmetic, the presence registry |
| `Sweeper.dfy`, `Timeline.dfy` | one sweep over all rooms; the life of an abandoned room |
| `PollLoop.dfy`, `PollCommand.dfy`, `Reconcile.dfy` | the client's poll loop, its command line, the Stop pass |

Reading the machine next to the source: `SendNext` is `send_message`, `SignalNext` is `signal_room`, `CloseNext` is
`close_room` with `close_now`, `ExtendNext` is `extend_room`, `Moving` is `apply_transition`, `WaitNext` and
`WaiterNext` are `wait_room` with `wait_for_message_until` and `wait_relevant_change`, `JoinNext` is `join_room`,
`Pruning` is `prune_room` (all in `crates/chatbotchat-core/src/http.rs` and `waiter.rs`), and `SweepNext` is one room's
turn in `sweep_once`. Fields marked "history" are no columns. They record what happened so that a property can speak of
it (who cast a vote, what a row has claimed, which rosters were counted); no step's outcome depends on them.

Every result named "in every run" quantifies over `Exec(INIT, run)` for an arbitrary list of actions: opening rooms,
beginning requests, one step of any request with an arbitrary clock reading, and long-poll clients going away.

## What turned out not to hold as said

- A sleeping long-poll can miss a standing close proposal although nobody in its room has a ring still to give.
  `VoteWakeup.LostCloseProposals` proves exactly when, for every run. A close whose votes were enough but whose swap was
  lost to a concurrent change that left the room open answers 409 without a notify (`http.rs:904-931`) and leaves its
  vote; under the default quorum everybody live had voted when it counted (`CloseSafety.ConflictHadEveryone`), so only a
  waiter who was dark at that moment can miss it. A voter who was dark when the waiter checked may poll again, which
  rings nobody. A vote may come from a request to another room, which rings there. And a send to another room may take
  the waiter's own vote. There is no fifth way, and each of the four has its run from the empty daemon with the waiter
  parked, in `MissedVotes` and `StrayRuns`. The first needs a park longer than the ghost window of 15 minutes; the
  shipped cap of 600 s (`http.rs:27`) rules it out as long as the clock does not jump. For extend votes the first way
  does not exist (`VoteWakeup.LostExtendProposals`).
- The last two ways, and claims that go astray, come from one cause: a pruned handle can be minted again in another room
  while a request of the first still acts by it, because rows are written by handle alone (`storage.rs:179-194` and
  `:706-717`). `Claims.ClaimsAreExact` and `StrayVotes.VotesStayHome` prove that claims are exact, and votes belong to
  requests of their room, throughout a run if and only if none of its steps writes to a row of another room; and no run
  without a prune has such a step (`Unpruned.NobodyStrays`).
- `backoff_secs` casts the minute count to 32 bits. `Backoff.WithinBounds` proves that the result lies between the base
  and a minute if and only if the cast count is not negative; `Backoff.WrapDropsToZero` shows the first input that fails.
- A delivery other than an autonomous turn can also tell the reader to surface, when it comes while the count still
  stands at the mark (`SoftCap.SignalsSurfaceAgain`).
- The poll loop need not end when `--max-polls` or `--max-stale-wait-secs` is 0; `PollLoop.EndsIffBounded` is exact.
- A printed `cbc poll` command is not recognised as its own when the room or the model is spelt `--as`
  (`PollCommand.PrintedFindsItself`, exact), and a connection declared without an identity makes the Stop pass kill
  other sessions' polls of that room (`Reconcile.RoomScopedKillsOthers`).

Where comments and code disagree the model follows the code: a send clears only the sender's own votes
(`http.rs:644` and `:651`, against `http.rs:825-826`), an agreed extend adds 20 (`http.rs:952`, against 10 in
`crates/chatbotchat-client/src/lib.rs:285`), and a `fold` does not reset the soft-cap run (`storage.rs:597-602`, against
`bins/cbc/src/mcp.rs:343`).

## Model

| member | source | states |
|---|---|---|
| Consensus.ConsensusCloseConverges | crates/chatbotchat-core/src/http.rs:829-931 | Take any stretch of any run in which a room is active until it is closed, and some participants who each end with an unforced close and from its vote on keep their row and have no send on the way to retract it. Their votes may lie any time apart, some may already stand when the stretch begins, some of them may be still to join, and anybody else may join, poll, speak, vote and go; only when a last close counts and all of them have voted is nobody else to be live. However all steps of all requests interleave, the room is closed once those closes are answered. |
| PeacefulRuns.PeacefulCloseConverges | crates/chatbotchat-core/src/http.rs:829-931 | The same with nothing assumed of the room's state, its rows or sends: in any run in which people only join, long-poll and ask to close, take participants each of whose last closes is by the instance of a row that was in the room before; once those closes are answered the room is closed, if nobody else was live when one of them counted and all had voted. |
| PeacefulRuns.PeacefulStretch | crates/chatbotchat-core/src/http.rs:829-931 | Such a run is a stretch from any moment at which one of the last closes is still to count: the room is active or closed throughout, and every row keeps standing for its instance. |
| Consensus.StretchHolds | crates/chatbotchat-core/src/http.rs:865-898 | The invariant behind it, over every prefix: a vote cast by a last close stands while the room is open, and once all of them have counted one of them is about to close the room. |
| Consensus.EverybodyIsEnough | crates/chatbotchat-core/src/room.rs:48-54 | When the votes of all those present stand and the live are some of them, a count meets the quorum, whichever the room has, and however many of those present have gone dark. |
| Consensus.VoteStays | crates/chatbotchat-core/src/http.rs:635-651 | While the room is open no step of any request of any room, at any clock reading, takes away a participant's standing vote and leaves its row, except a send at work for that participant. |
| Consensus.AlwaysClearEnded | crates/chatbotchat-core/src/http.rs:917-931 | In every run, whoever is about to clear the close votes of a room has seen it ended, and it is. |
| ConsensusExample.StretchesHappen | crates/chatbotchat-core/src/http.rs:829-931 | The conditions of the convergence theorem can be met, by a run from the empty daemon: one participant votes and is told that votes are lacking; sixteen minutes later another joins, the first polls, and the two others close in turns; at one moment both have counted enough votes, more than a ghost window apart, and the room is still open. |
| CloseSafety.ClosesAreJustified | crates/chatbotchat-core/src/http.rs:865-931 | In every run, every move into closed was made by a request for that room which either was a forced close itself, or had itself read, at an earlier moment and after its own vote, a roster in which the standing votes of live participants met the quorum; likewise every close still on its way or turned away. |
| CloseSafety.AllMeansEveryone | crates/chatbotchat-core/src/room.rs:48-54 | Under the default quorum such a roster has at least one live participant and a vote of each. |
| CloseSafety.AlwaysAll | crates/chatbotchat-core/src/http.rs:117-117 | In every run every room has the default quorum. |
| CloseSafety.ConflictHadEveryone | crates/chatbotchat-core/src/http.rs:912-926 | In every run, a close answered with a conflict had counted the vote of every live participant. |
| Wakeup.NoLostMessage | crates/chatbotchat-core/src/waiter.rs:106-147 | In every run: if a subscribed waiter past its look at the inbox has no ping pending and its row still is its own, every unclaimed message for it was inserted by a request that has yet to ring. |
| Wakeup.SleeperMissesNothing | crates/chatbotchat-core/src/http.rs:616-667 | So with no such request under way a parked, unpinged waiter has an empty inbox. |
| Wakeup.NoLostHalt | crates/chatbotchat-core/src/http.rs:788-814 | In every run a parked, unpinged waiter's room is neither paused nor closed unless the request that made it so has yet to ring. |
| VoteWakeup.NoLostVote | crates/chatbotchat-core/src/http.rs:1418-1503 | In every run, for every waiter whose own vote no request to another room has taken since its check: every close or extend vote of another participant that stands while it is unpinged was seen at that check, when nothing called for its decision, or came from a request to another room, or was cast by a request that has yet to ring, or by a close that answered a conflict, and then the waiter's own row was in the counted roster with its own vote accounted for. |
| VoteWakeup.LostCloseProposals | crates/chatbotchat-core/src/http.rs:1418-1479 | In every run, while nobody in the room has a ring still to give: a parked, unpinged waiter has a close proposal to yield on if and only if it has no vote itself and there is a live voter who was dark at its check and has polled since, or whose close was turned away when the waiter itself was dark at the count, or whose vote came from a request to another room; or there is a live voter and a request to another room has taken the waiter's own vote since its check. |
| VoteWakeup.LostExtendProposals | crates/chatbotchat-core/src/http.rs:1485-1503 | The same for an extend proposal, without the case of a close turned away. |
| MissedVotes.ReturningVoterIsMissed | crates/chatbotchat-core/src/http.rs:1461-1479 | A run from the empty daemon in which a parked waiter misses a proposal of a voter who came back, and no close was turned away. |
| MissedVotes.TurnedAwayVoteIsMissed | crates/chatbotchat-core/src/http.rs:904-931 | A run from the empty daemon in which a parked waiter misses the vote of a close that lost the room to the sweep, and had seen no vote at its check. |
| StrayVotes.VotesStayHome | crates/chatbotchat-core/src/storage.rs:179-194 | In every run: every standing vote belongs, at all moments, to a request of its own room, if and only if no step casts one on a row of another room. |
| StrayVotes.NoneFromOutside | crates/chatbotchat-core/src/storage.rs:179-194 | Then no standing vote came from a request to another room. |
| StrayRuns.VoteGoesAstray | crates/chatbotchat-core/src/storage.rs:179-194 | A run from the empty daemon in which a vote lands in another room, where a parked waiter misses it for that reason and no other. |
| StrayRuns.VoteIsTakenAway | crates/chatbotchat-core/src/http.rs:635-651 | A run from the empty daemon in which a send to one room takes the vote its sender has in another, where that sender is parked and then misses the other's vote for that reason and no other. |
| Wakeup.AdvanceOwes | crates/chatbotchat-core/src/http.rs:616-931 | A request that has inserted, halted or voted goes on owing a ring through every further step until it rings; only a close may give up, with a conflict. |
| Claims.ClaimsAreExact | crates/chatbotchat-core/src/storage.rs:690-723 | In every run, for all sends and all concurrent waits: at all its moments what each row has claimed is its inbox between the cursor it joined with and its cursor then, if and only if no step of the run moves the cursor of a row of another room than the waiter's. |
| Claims.StraysOnlyWhenPruned | crates/chatbotchat-core/src/storage.rs:706-717 | Such a step needs a waiter whose own row was pruned and whose handle was minted again. |
| StrayRuns.ClaimGoesAstray | crates/chatbotchat-core/src/storage.rs:706-717 | A run from the empty daemon with such a step: a row of one room claims a message of another. |
| Unpruned.NobodyStrays | crates/chatbotchat-core/src/storage.rs:822-836 | In a run in which no prune is asked for no claim strays, no vote is cast on a row of another room, and no waiter's vote is taken by a request to another room. |
| Claims.InboxIsExact | crates/chatbotchat-core/src/storage.rs:462-487 | That inbox holds exactly the messages of the room that are not the reader's own and are broadcast or addressed to it, between the cursors, in strictly rising order. |
| Joining.JoinsShowOnlyConsumed | crates/chatbotchat-core/src/http.rs:273-307 | In every run no join answer contains a message its participant can still claim, while that row lives. |
| Joining.JoinIsGetOrCreate | crates/chatbotchat-core/src/http.rs:298-374 | For any interleaving of joins with one instance string that is nobody's handle and no prune of the room: every answer names the one row of that instance, and says `resumed=false` only to the join that inserted it. |
| Joining.AnswersAgree | crates/chatbotchat-core/src/http.rs:432-444 | Hence all answers carry one handle, at most one join is told it is new, and the instance resolves to that row afterwards. |
| Joining.CreatorIsTold | crates/chatbotchat-core/src/http.rs:345-351 | In every run the join that inserted a row has answered `resumed=false`, or its next step is to. |
| Joining.OneRowPerInstance | crates/chatbotchat-core/src/storage.rs:123-158 | In every run no room has two rows for one instance. |
| ExtendVotes.CapGrowsByAgreement | crates/chatbotchat-core/src/storage.rs:232-304 | In every run the hard cap is the opening cap plus 20 per raise; each raise counted a quorum of votes of live participants; all of them were cast after the raise before. |
| ExtendVotes.VotesSpentOnce | crates/chatbotchat-core/src/storage.rs:278-291 | No vote is counted by two raises. |
| HardCap.HardCapHolds | crates/chatbotchat-core/src/storage.rs:409-456 | In every state of every run no room holds more `msg` rows than its hard cap, although every send inserts against a cap it read earlier. |
| Audit.AuditLogIsAPath | crates/chatbotchat-core/src/storage.rs:858-902 | In every run each room's events are a path through the transition table from active to its present state, archive-kind exactly on entering the archive, and the last one's time is `state_changed_at`. |
| Audit.ClosedOnce | crates/chatbotchat-core/src/lifecycle.rs:51-88 | On such a path there is at most one entry into closed, followed by nothing but one into the archive. |
| Audit.EndedStaysEnded | crates/chatbotchat-core/src/http.rs:904-931 | A room that is closed or archived after some run is so after every longer one. |
| Trailing.TrailingWritesBounded | crates/chatbotchat-core/src/http.rs:581-634 | After a room has ended at most as many messages land in it, over any continuation, as there were requests past their write guard. |
| Trailing.SendOnlyRevives | crates/chatbotchat-core/src/http.rs:658-665 | A send changes a state only from idle or stale to active, however stale its reading. |
| Trailing.SendsWakeRooms | crates/chatbotchat-core/src/http.rs:658-665 | In every run: when a send that read its room idle or stale comes to its ring, the room has left that state since, whoever moved it. |
| Evolution.RunKeeps | crates/chatbotchat-core/src/storage.rs:278-287 | Between any two moments of any run: rooms stay, caps only grow, ended rooms stay ended, logs are only appended to, rows keep their identity and cursors never go back. |
| Evolution.AdvanceAppends | crates/chatbotchat-core/src/http.rs:616-667 | A step appends at most one message, to its own room, only at the inserting points, and owes a ring afterwards. |
| Evolution.AdvanceActsFor | crates/chatbotchat-core/src/http.rs:432-444 | A request finds its participant among the rows of its own room, by instance before handle, and never acts for another. |
| Effects.AdvanceRows | crates/chatbotchat-core/src/storage.rs:179-304 | The complete list of row writes: which step may change which field of whose row, to what. |
| Effects.AdvanceMoves | crates/chatbotchat-core/src/storage.rs:858-902 | A step leaves all states and the audit log alone, or makes one successful swap of its own room along an edge of the table, with its audit row. |
| Pruning.PruningIsInvisible | crates/chatbotchat-core/src/http.rs:384-403 | Prune at t and let any statements follow that are not on behalf of a pruned participant: at every later clock reading live counts, vote counts and needed votes, for close and extend, are what they would be without the prune. |
| PrunedRuns.RunIsTrace | crates/chatbotchat-core/src/storage.rs:82-946 | The tables any run of the daemon leaves are those its sequence of these statements leaves, one per writing step. |
| PrunedRuns.PruningIsInvisibleToRuns | crates/chatbotchat-core/src/http.rs:384-403 | So the counts after any run of the daemon are what they would be had a prune come before the same statements, none of them on behalf of a pruned participant. |
| Pruning.CountsAgree | crates/chatbotchat-core/src/storage.rs:822-836 | The three liveness boundaries coincide: what the prune deletes is what no later count would have counted. |
| Pruning.ClosesAgree | crates/chatbotchat-core/src/http.rs:865-931 | A close takes the same turns with and without the pruned rows. |
| Pruning.ExtendsAgree | crates/chatbotchat-core/src/storage.rs:232-304 | An extend vote has the same outcome with and without them. |
| Pruning.ProposalsAgree | crates/chatbotchat-core/src/http.rs:1461-1503 | What is proposed to a participant still there does not change either. |
| SoftCap.QueryIsRun | crates/chatbotchat-core/src/storage.rs:592-611 | The two-part query equals a counter kept while reading the log: zero at a human message or a `waiting_user`, one more at an autonomous message. |
| SoftCap.RunIsStable | crates/chatbotchat-core/src/storage.rs:578-583 | Later appends never change the count at a delivered message. |
| SoftCap.SurfacesOncePerRun | crates/chatbotchat-core/src/http.rs:1331-1332 | Between two breaks exactly one autonomous message meets the mark if the run is long enough, and none otherwise. |
| SoftCap.SignalsSurfaceAgain | crates/chatbotchat-core/src/http.rs:1331-1332 | The delivery after one that surfaced surfaces too exactly if it is neither a turn nor a break. |
| Lifecycle.ComputeTimeEvent | crates/chatbotchat-core/src/lifecycle.rs:115-151 | Every event the clock produces is legal in the state it is produced for; a day of silence is enough for one in an active room; a closed or stale room has one exactly from 14 days on, a paused or archived one never. |
| Lifecycle.TerminalStatesHold | crates/chatbotchat-core/src/lifecycle.rs:51-88 | From closed only the archive can be reached, from the archive nothing. |
| Lifecycle.CloseQuorum.Needed | crates/chatbotchat-core/src/room.rs:48-54 | At least one vote, never more than the live, all of them under All, under Majority more than half and the least such number. |
| Sweeper.SweepOnce | crates/chatbotchat-core/src/sweeper.rs:37-82 | Undisturbed, one pass gives every room that is not archived the one move it is due, reports each move once, in order, and writes one audit row per move and nothing else. |
| Timeline.SweptFollowsTable | crates/chatbotchat-core/src/sweeper.rs:60-71 | A sweep moves a room along the table or leaves it as it is, and never touches a paused or archived one. |
| Timeline.SweepRequestAlone | crates/chatbotchat-core/src/sweeper.rs:44-79 | The machine's sweep of one room, uninterrupted, does what the pass does to it. |
| Timeline.AbandonedRoom | crates/chatbotchat-core/src/lifecycle.rs:91-151 | The state of an abandoned active room after any number of hourly sweeps, exactly: active, idle from the first sweep that sees only ghosts or the one after a day, stale from the one at seven days, archived from the one fourteen days on. |
| Timeline.ArchivedInTime | crates/chatbotchat-core/src/lifecycle.rs:91-151 | It is archived in [t0 + 21 d, t0 + 21 d + 1 h) and at no sweep before. |
| Timeline.PassesDoRooms | crates/chatbotchat-core/src/sweeper.rs:37-82 | Any number of passes over the tables, each over the rooms then not archived in any order, do to each room what sweeping it alone would. |
| Timeline.AbandonedRooms | crates/chatbotchat-core/src/sweeper.rs:37-82 | So both results hold of every abandoned room of the tables after any number of hourly passes. |
| Timeline.RestingRoom | crates/chatbotchat-core/src/lifecycle.rs:142-148 | A closed or stale room after any number of hourly sweeps: archived if and only if one of them came 14 days or more after it became so, and otherwise as it was. |
| Timeline.RestingRooms | crates/chatbotchat-core/src/sweeper.rs:37-82 | The same of every such room of the tables under repeated passes. |
| Timeline.IdleRoom | crates/chatbotchat-core/src/lifecycle.rs:132-148 | An idle room: idle until the first sweep that finds it unused for 7 days and nobody polled for 15 minutes, stale from then, archived by the first sweep 14 days later. |
| Timeline.PollersKeepIdle | crates/chatbotchat-core/src/lifecycle.rs:132-139 | As long as each sweep finds a live poller an idle room stays as it is, whatever its age. |
| Presence.PresenceIsTruthful | crates/chatbotchat-core/src/presence.rs:68-136 | For a clock that never runs back and any uses: a query answers as a ledger that forgets nothing would, counts are the outstanding guards, a release never finds zero, and after an entry only parked or within-grace handles are held. |
| Presence.RegistryMatches | crates/chatbotchat-core/src/presence.rs:93-135 | The invariant behind it, over every sequence of uses. |
| Presence.Presence.Enter | crates/chatbotchat-core/src/presence.rs:68-88 | Collects, then counts one more. |
| Presence.Presence.Retain | crates/chatbotchat-core/src/presence.rs:93-100 | Keeps exactly the entries parked or within grace, unchanged. |
| Presence.Presence.IsLive | crates/chatbotchat-core/src/presence.rs:106-122 | Answers, and forgets the handle asked about if it is dead. |
| Presence.Presence.Release | crates/chatbotchat-core/src/presence.rs:124-135 | One less, floored at zero, and the time noted; nothing for an unknown handle. |
| Backoff.WithinBounds | crates/chatbotchat-core/src/waiter.rs:162-174 | The hint lies between the severity's base and 60 if and only if the 32-bit minute count is not negative, which holds below 2^31 minutes. |
| Backoff.LongerMeansNoShorter | crates/chatbotchat-core/src/waiter.rs:162-174 | Below 2^31 minutes it never falls as time goes on. |
| Backoff.ReachesCeiling | crates/chatbotchat-core/src/waiter.rs:155-161 | It is 60 exactly from 5, 3 or 1 minutes past the first five on, by severity. |
| Backoff.FirstSteps | crates/chatbotchat-core/src/waiter.rs:171-173 | Every value it takes on the way, rounded half up. |
| Backoff.WrapDropsToZero | crates/chatbotchat-core/src/waiter.rs:170-173 | At the first wrapped count it is 0. |
| PollLoop.EndsIffBounded | bins/cbc/src/main.rs:1102-1197 | The loop ends within some number of answers, on every stream of answers and errors, if and only if none of the three bounds is 0. |
| PollLoop.BoundedEnds | bins/cbc/src/main.rs:1007-1088 | That number is five times one more than a budget computed from the bounds. |
| PollLoop.EndsAsInvoked | bins/cbc/src/main.rs:527-545 | Through the command line the join bound is never 0, so the other two decide. |
| PollLoop.HoldsGiveUpInTime | bins/cbc/src/main.rs:1016-1073 | A hold with window W gives up having slept in [W, W + max(base, 60)); an empty give-up comes at exactly the configured count; every sleep is at least a second; each stale spell is announced once, at its start. |
| PollLoop.CountersAreTrue | bins/cbc/src/main.rs:1007-1088 | At every point of every stream the counters are what actually happened: sleeps in the join hold, in the current stale spell, empty answers. |
| PollLoop.PollUntilEvent | bins/cbc/src/main.rs:1102-1197 | The loop over a class that updates its counters has the outcome, the sleeps and the heads-ups of the specified loop, and stops at the first answer that ends it; and by the last answer it used: it delivers exactly on a message, hands back exactly on a close or extend proposal, a paused, closed or archived room or an unknown status, fails exactly on the fifth error in a row, and gives up only on the status it was waiting through. |
| PollLoop.EndsAsAnswered | bins/cbc/src/main.rs:1007-1197 | The same of the specified loop, on every stream. |
| PollLoop.SleepsAreRight | bins/cbc/src/main.rs:1016-1073 | Every sleep: the server's `retry_after` but a second at least after an empty answer, the configured backoff after an error, in a hold the configured pace for the first half hour slept in it and a minute at least from then on. |
| PollLoop.PollState.PollDecision | bins/cbc/src/main.rs:1007-1088 | New counters and action for every response: it delivers exactly on a message, and hands back exactly on a status that needs its agent. |
| PollLoop.PollState.ClearStale | bins/cbc/src/main.rs:974-977 | Ends the stale spell and nothing else. |
| PollLoop.EffectiveMaxJoinWait | bins/cbc/src/main.rs:889-895 | Always between a second and an hour, and the setting itself where that is in range. |
| PollLoop.QuietBackoff | bins/cbc/src/main.rs:903-910 | Between the floored base and the larger of base and a minute. |
| PollCommand.DeclaredIsRecognised | bins/cbc/src/hook.rs:106-145 | A connection of slugs that is declared, read and printed is recognised for its own room and identity and for no other. |
| PollCommand.DeclarationsRoundTrip | bins/cbc/src/hook.rs:106-145 | Any list of declared connections is read back as it was. |
| PollCommand.PrintedMatches | bins/cbc/src/hook.rs:548-573 | Which pairs a printed command matches, for arbitrary words. |
| PollCommand.PrintedFindsItself | bins/cbc/src/hook.rs:385-390 | When exactly it matches its own pair. |
| PollCommand.MatchesOnePair | bins/cbc/src/hook.rs:548-573 | No command line whatever matches two identity-scoped pairs. |
| PollCommand.WordsOfSpaced | bins/cbc/src/hook.rs:548-549 | Splitting undoes spacing out, for any words. |
| PollCommand.ParseConnections | bins/cbc/src/hook.rs:106-145 | The scanning loop with its block flag returns what the recursive reading of the lines does. |
| Reconcile.StopPass | bins/cbc/src/hook.rs:753-812 | Each connection that is declared for a whole room, or whose room no other is declared for as a whole: if it had several polls it has one of them left, otherwise it keeps exactly what it had. No process outside the declared connections is gone and none is new; a command is advised if and only if it is that of a pair with no poll that was neither launched nor recently polled. |
| Reconcile.PlanStop | bins/cbc/src/hook.rs:596-619 | Kill orders and relaunch commands, in order, for every count and hint: orders exactly for the pairs with several polls, commands exactly for those with none that were neither launched nor recently polled. |
| Reconcile.KillsAreCrowded | bins/cbc/src/hook.rs:605-617 | Orders go out for exactly the declared pairs with several polls. |
| Reconcile.AdviceIsForTheBereft | bins/cbc/src/hook.rs:596-619 | Either hint alone suppresses the advice, and nothing else does where there is no poll. |
| Reconcile.ProcessTable.KillSurplusPolls | bins/cbc/src/main.rs:842-847 | One poll of the pair is left if there was any; all other processes are left alone. |
| Reconcile.ProcessTable.MatchingPolls | bins/cbc/src/main.rs:808-823 | Exactly the matching processes, each once. |
| Reconcile.RelaunchRestores | bins/cbc/src/hook.rs:373-390 | A process relaunched with the advised command is the one poll of its pair and no poll of another. |
| Reconcile.RoomScopedKillsOthers | bins/cbc/src/hook.rs:92-96 | After a pass with a connection declared for a whole room, a session's poll of that room is still there if and only if it is the one poll left of the room; of two sessions' polls one is gone. |
| Identity.MintsTheFirstFree | crates/chatbotchat-core/src/identity.rs:50-65 | The minted handle is the first free candidate, whenever one is free. |
| Identity.Derive | crates/chatbotchat-core/src/identity.rs:41-66 | The loop reuses the handle listed for the instance, and otherwise mints; with no free candidate the last, with none at all the prefix. |
| Hub.PingIsSeen | crates/chatbotchat-core/src/waiter.rs:130-142 | A receive returns exactly when something is queued or lost, and every ring sees to that. |
| Hub.RingLastsUntilWake | crates/chatbotchat-core/src/waiter.rs:106-142 | However many rings coalesce or are dropped at the bound of 16, after a ring the receiver is pinged until it has woken. |
| Hub.NoWakeWithoutRing | crates/chatbotchat-core/src/waiter.rs:130-142 | And never before one. |
| Hub.Hub.Subscribe | crates/chatbotchat-core/src/waiter.rs:28-34 | A new receiver with nothing waiting; all others as they were. |
| Hub.Hub.Notify | crates/chatbotchat-core/src/waiter.rs:37-43 | Pings every receiver of the room and no other. |
| Hub.Hub.Receive | crates/chatbotchat-core/src/waiter.rs:130-142 | Takes one ping, or reports the lag, from this receiver's queue alone. |
| Handlers.SendMessage | crates/chatbotchat-core/src/http.rs:570-673 | Run alone, the handler leaves the tables, and rings or not, as the machine's send does. It is refused if and only if the room is missing, paused, closed or archived, the caller has no row there by instance or handle, the recipient has none, or the `msg` rows of the room have reached its cap; then nothing is written. Otherwise exactly this is written: the message, the sender's own two votes gone, the activity time of the room the time of the message, and an idle or stale room active since then, with one audit row. The answer is the new highest seq. |
| Handlers.SignalRoom | crates/chatbotchat-core/src/http.rs:682-817 | The same for a signal: refused if and only if the room is missing, paused, closed or archived, the caller is a stranger, the kind is none of the three, or it is a blocker in a stale room; otherwise the signal is written, and for a blocker the pause of the room, and nothing else. |
| Handlers.CloseRoom | crates/chatbotchat-core/src/http.rs:829-899 | The same for a close: refused if and only if the room is missing, closed or archived, or the caller is a stranger. Forced, it closes the room. Otherwise the vote is cast and the caller is live by it, and the room closes if and only if the live have all voted, or more than half of them under Majority; if not the answer gives the votes and the least number that would do. All that is written is stated, row by row. |
| Handlers.CloseNow | crates/chatbotchat-core/src/http.rs:904-931 | From any point at which the machine starts closing, with its success or failure; after a success the room has ended; from the room as it is, it always succeeds, and closes it with one audit row and no vote left. |
| Handlers.ExtendRoom | crates/chatbotchat-core/src/http.rs:962-1049 | The same for an extend: refused if and only if the room is missing, paused, closed or archived, or the caller is a stranger. The vote is cast, and the cap is 20 higher, all extend votes gone and the notice posted if and only if the live have agreed. |
| Handlers.ApplyTransition | crates/chatbotchat-core/src/http.rs:1078-1122 | The same for an explicit pause or wake: refused if and only if the room is missing, the caller is a stranger, or the room is not active or idle for a pause, not idle or paused for a wake; otherwise it is paused, or active, with one audit row, and nothing else is written. |
| Handlers.PruneRoom | crates/chatbotchat-core/src/http.rs:384-403 | The same for a prune: refused only without a room; gone are exactly the rows of the room not polled for more than 15 minutes, and they are counted. |
| Handlers.JoinRoom | crates/chatbotchat-core/src/http.rs:259-375 | The same for a join. Who has a row gets its handle, `resumed`, the last 50 messages up to its cursor, and nothing is written. A stranger gets a row under a minted handle that reads from the head of the room on, and sees the last 50 messages before it. Refused if and only if there is no room, or all 64 handles minted for a stranger were taken. |
| Handlers.ResolveParticipant | crates/chatbotchat-core/src/http.rs:432-444 | The row by instance, failing that by handle. |
| Handlers.OpenRoom | crates/chatbotchat-core/src/http.rs:105-169 | Refused exactly for caps out of range; otherwise opened under the first free of 64 candidate ids, active, with the two caps as asked for and the default quorum, and nothing else changed; or nothing changed and all 64 taken. |
| Handlers.MachineOpens | crates/chatbotchat-core/src/http.rs:105-169 | The opening of the machine does the same under a given id. |
| WaitHandler.WaitRoom | crates/chatbotchat-core/src/http.rs:1143-1344 | The same for a long-poll: refused only to a stranger. It notes the poll, and once more with company or in a halted room; hands over and claims the oldest message the caller had not claimed; comes back without one if and only if there is none or the caller is the only one in an open room; writes nothing else. It goes to sleep if and only if the room is open, there is company and no message, the park is not cut, the deadline is ahead after the look at the inbox, and no proposal waits by then. |
| WaitHandler.DecidePark | crates/chatbotchat-core/src/http.rs:1268-1281 | The park is cut to nothing if and only if the caller is impatient, or the last message of anybody else in the log is not a `waiting_user` and at its reading everybody else is dark, or a close or an extend is proposed. |
| WaitHandler.TryClaim | crates/chatbotchat-core/src/waiter.rs:114-122 | One undisturbed claim, then the deadline. |
| WaitHandler.ShouldYield | crates/chatbotchat-core/src/http.rs:1418-1438 | Yields if and only if the room is paused, closed or archived, or at its reading a close or an extend is proposed; otherwise parks with what it saw. |
| WaitHandler.Park | crates/chatbotchat-core/src/waiter.rs:130-147 | Sleeps until the deadline when nobody rings. |
| WaitHandler.WokenLooksAgain | crates/chatbotchat-core/src/waiter.rs:114-147 | A waiter woken with its deadline ahead takes the next message if there is one; otherwise it goes back to sleep if and only if the room is open and nothing is proposed. |
| Refusals.FailuresHaveReasons | crates/chatbotchat-core/src/http.rs:570-1344 | For any tables, however they changed since the request read: a step ends its request without a ring if and only if there is the reason for it, case by case: no room, a halted room, a stranger, an unknown recipient, the cap, a state that has moved on, a room still open after a lost swap, 64 attempts, an empty look at the deadline, a reason to yield. |
| Refusals.BlockersHavePaused | crates/chatbotchat-core/src/http.rs:766-814 | In every run there is, behind every `blocker_real_work` in the log, a pause of its room made at that time by the request that posted it. |
| Outcomes.CountIsTalk | crates/chatbotchat-core/src/storage.rs:409-456 | The count the insert is guarded by is the number of `msg` rows of the room. |
| Outcomes.QuorumIsAgreement | crates/chatbotchat-core/src/room.rs:48-54 | The number of votes needed is met if and only if all the live have voted, or more than half under Majority, and otherwise is the least that would do. |
| Outcomes.AwayIsLatest | crates/chatbotchat-core/src/storage.rs:500-521 | The message the backoff goes by is a message of the room from somebody else with none such after it. |
| Outcomes.WaitChecks | crates/chatbotchat-core/src/http.rs:1461-1534 | The three checks of a waiter, said of the tables: others dark for 15 minutes, a live proposer, the caller without a vote. |
| Outcomes.TransactionCame | crates/chatbotchat-core/src/storage.rs:232-304 | What the extend transaction and its notice come to, row by row. |
| WaitHandler.CheckCloseProposed | crates/chatbotchat-core/src/http.rs:1461-1479 | True exactly if another live participant wants to close and the caller has not said so. |
| WaitHandler.CheckExtendProposed | crates/chatbotchat-core/src/http.rs:1485-1503 | The same for an extend. |
| WaitHandler.CheckCounterpartIsStale | crates/chatbotchat-core/src/http.rs:1518-1534 | True exactly if there are others and all of them are dark. |
| WaitHandler.HasCounterpart | crates/chatbotchat-core/src/http.rs:1443-1453 | True exactly if anybody else has a row. |
| Storage.ClaimsEmptyTheInbox | crates/chatbotchat-core/src/storage.rs:690-723 | Any number of claims in a row hand out exactly the inbox between the cursor before and the cursor after. |
| Storage.Storage.ClaimNextUnread | crates/chatbotchat-core/src/storage.rs:690-723 | Whatever rivals claim between its reads and its swap, in any round, the call has the effect of one undisturbed claim after some number of theirs. |
| Storage.Storage.TryExtend | crates/chatbotchat-core/src/storage.rs:232-304 | Vote, count, raise and clear as one transaction, with its outcome. |
| Storage.Storage.UpdateRoomState | crates/chatbotchat-core/src/storage.rs:858-902 | State, time and audit row together, or nothing. |
| Storage.Storage.CreateMessageCapped | crates/chatbotchat-core/src/storage.rs:409-456 | Inserts only below the cap, never past it, and writes nothing when refused. |
| Storage.Storage.CreateMessageTyped | crates/chatbotchat-core/src/storage.rs:353-395 | Appends, uncapped. |
| Storage.Storage.PruneStaleParticipants | crates/chatbotchat-core/src/storage.rs:822-836 | Deletes exactly the rows last polled before the cutoff, and counts them. |
| Storage.Storage.CreateParticipant | crates/chatbotchat-core/src/storage.rs:123-158 | Refused when the handle is taken anywhere or the instance in the room. |
| Storage.Storage.CreateRoom | crates/chatbotchat-core/src/storage.rs:82-106 | Refused when the id is taken. |
| Storage.Storage.SetCloseVote | crates/chatbotchat-core/src/storage.rs:179-194 | Sets or retracts one participant's vote. |
| Storage.Storage.ClearCloseVotes | crates/chatbotchat-core/src/storage.rs:201-207 | Clears the close votes of one room. |
| Storage.Storage.ClearExtendVote | crates/chatbotchat-core/src/storage.rs:217-223 | Clears one participant's extend vote. |
| Storage.Storage.TouchLastPoll | crates/chatbotchat-core/src/storage.rs:671-683 | Rewrites one participant's poll time. |
| Storage.Storage.TouchLastActivity | crates/chatbotchat-core/src/storage.rs:934-946 | Rewrites one room's activity time. |
| Storage.Storage.NextUnread | crates/chatbotchat-core/src/storage.rs:462-487 | The loop finds what the specification defines. |
| Tables.NextUnread | crates/chatbotchat-core/src/storage.rs:462-487 | The least seq past the cursor that is for the reader, or none. |
| Storage.Storage.LatestMessageFromOther | crates/chatbotchat-core/src/storage.rs:500-521 | The latest row of the room from anyone else. |
| Storage.Storage.CurrentSeq | crates/chatbotchat-core/src/storage.rs:554-561 | The loop finds what the specification defines. |
| Tables.HeadIsLast | crates/chatbotchat-core/src/storage.rs:554-561 | It is the last message of the room, and 0 exactly when the room has none. |
| Storage.Storage.CountCappedMessages | crates/chatbotchat-core/src/storage.rs:569-576 | Counts the `msg` rows of the room. |
| Storage.Storage.ConsecutiveMsgCount | crates/chatbotchat-core/src/storage.rs:592-611 | Boundary and count, proved equal to the reader's counter. |
| Storage.Storage.RecentMessagesUpTo | crates/chatbotchat-core/src/storage.rs:623-641 | The window fetched newest first and handed back in order. |
| Tables.RecentIsTheTail | crates/chatbotchat-core/src/storage.rs:623-641 | The window rises, holds messages of the room at or below the bound only, and leaves one of those out only when it is full of later ones. |
| Storage.Storage.GetParticipantByInstance | crates/chatbotchat-core/src/storage.rs:740-759 | The row of the room with this instance, if any. |

## Left out

- Consensus.ConsensusCloseConverges: takes as given that the room is neither paused nor swept before it closes; a close whose room has moved on answers a conflict, as `CloseSafety` and `VoteWakeup` describe.
- PrunedRuns.PruningIsInvisibleToRuns: compares the statements of one run with and without the prune. Requests that branch on what they read may take another branch without the pruned rows; for closes and extends `Pruning.ClosesAgree` and `Pruning.ExtendsAgree` prove that they do not, and a long-poll does, since a participant left alone with ghosts is told so.
- Joining.JoinIsGetOrCreate: assumes, as the property does, that the room is not pruned and the instance string is nobody's handle.
- Handlers.SendMessage: the straight-code handlers are proved for requests that nothing interrupts; what interruption does is the business of the request machine, which is a value-level step relation because a method body cannot be suspended between two statements.
- Handlers.OpenRoom: the base id (kebab-cased subject and minute) is a parameter.
- WaitHandler.WaitRoom: the hints read after the park (`retry_after`, `surface_to_user`, the status text of `timeout_response`) are not part of the answer modelled; the count behind `surface_to_user` is in `SoftCap`.
- Reconcile.StopPass: takes the process table as a map from pid to command line; reading and splitting the text of `ps` is not modelled, nor are legacy state files, hints from marker files beyond a predicate, or the session filter.
- PollCommand.ParseConnections: takes the file as a list of lines, and spaces are blank, tab, carriage return and newline, where the source's `trim` and `split_whitespace` know all Unicode spaces.
- PollLoop.PollUntilEvent: counters are unbounded, where the source's `empty_polls` is 32 bits wide and its waits 64; with bounds in force none can overflow. What is printed is left out, except that the heads-up happens.
- Backoff.WithinBounds: exact rationals for the source's floating point; all values below the ceiling are exactly representable there, and no quotient that arises for a negative exponent is a tie.
- Presence.PresenceIsTruthful: assumes a clock that does not run back, as the process clock promises; usize overflow of the count is not modelled.
- SQLite: each statement and each transaction is one atomic step of a single writer, `seq` grows with commit order, and database errors in the middle of a handler are not modelled.
- Timestamps are integers (nanoseconds). The SQL compares RFC 3339 text; the two orders agree under the conditions of section 5.1 of RFC 3339 (same offset, same number of fraction digits), which is assumed.
- Caps and counters are unbounded integers where the source has 32 and 64 bits.
- The client of a long-poll may go away at any step. Every other request is assumed to be carried to its end: a server that drops a handler half-way, after the insert and before the ring, is outside the model.
- Delivery: a message counts as delivered once its claim has succeeded; a response lost on the network after that is not modelled.
- Presence is registered around a long-poll in the source; the registry is modelled on its own, since nothing in the protocol reads it.
- Random session suffixes are an arbitrary stream of candidates; `kebab` is not modelled, the handle prefix is a parameter.
- Message bodies, nicknames, subjects, linked rooms, transcripts, room summaries and the validation of signal fields carry no protocol state.
- The lookup of a request's identity string (`effective_instance`) happens before the model: calls carry the instance.
- At the deadline the machine may give up with a ping pending, or wake and look once more; the source always does the latter, which is one of the runs covered.
- `RecvError::Closed` cannot occur while the hub holds the sender, and is not modelled.
- HTTP, JSON, the MCP tools, command-line parsing, settings, installation and printed guidance.
- `create_message`, `insert_event` and `get_participant_by_tuple` are used by no handler.
