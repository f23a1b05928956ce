# corosync-qdisk: a verified model of the disk tiebreaker

`corosync-qdisk` runs on every node of a cluster. When the network splits the cluster in
half, the daemons race for the persistent reservation of one shared disk. The node that gets
it, and the nodes that see that node, give votequorum an extra vote; the others withdraw
theirs. This project models the daemon, the disk and the code that feeds the daemon its
inputs, and proves what the tiebreaker promises.

`dafny verify dfyconfig.toml` verifies the whole project.

## How the system is modelled

**The disk** (`SharedDisk.dfy`) has a list of registered keys and at most one holder, by the
rules of persistent reservations in SPC-3 section 5.6 and in section 8.8 of the NVMe
specification. A command can be lost before the disk has seen it, or its reply can be lost
after the disk has acted on it. Only two lost replies mislead a node about whether it holds
the disk: the one to a reserve and the one to a release, when they take effect. A run *keeps
the truth* when no such reply is lost and no operator moves a reservation to or from a node
that is past START.

**A daemon** is a machine that advances one command at a time (`NodeMachine.dfy`). It has a
phase for each command it can have in flight, so that steps of other nodes, crashes and
operator actions fall between any two commands of a heartbeat. A heartbeat takes three
clock readings: at the cutoff check, at the deadline check of the state switch, and at its
end. `Poll` records a vote that is handed to votequorum. Withdrawing the vote device is
recorded as a vote of 0; a crash and `abort()` leave the last vote standing. A stopped
process can be started again, with its static variables reset.

**The same daemon as the program writes it** (`Daemon.dfy`) is a class whose methods update
the static variables in place and issue commands to a device handle. `Drive` sends the
machine through the replies until no command is in flight, and each method is proved to issue
the same commands and to end in the same state as `Drive`, for every sequence of replies.

**A cluster** (`Cluster.dfy`) is one disk and any number of nodes. An event is one command of
one node, the start of a heartbeat, a start, a stop, a crash, or one command of an operator
with the command-line tool, under any key. An abort is a preempt followed by a release, and
other events can fall between the two. Keys from outside the cluster may be registered and
may hold the disk.
Node views (visible nodes, node count, quorate flag, node keys) are arbitrary unless a
theorem restricts them.

`Heartbeats.dfy` and `StartStop.dfy` say what single calls come to, from their results: which
heartbeats move the deadline, vote, change state or are given up, which starts come into
service, which commands are issued on the way, and what a stop leaves on the disk.
`NodeRuns.dfy` and `StaleVote.dfy` prove what one node does over runs of any length.
`Cluster.dfy`, `WriteOnce.dfy`, `SplitBrain.dfy`, `SplitTimes.dfy`, `SplitVotes.dfy`,
`SplitSettles.dfy` and `TieEnds.dfy` prove what holds for all nodes together.
The remaining modules cover the inputs: key generation and key text (`ReserveKey.dfy`,
`Scanf.dfy`), the node list kept by callbacks (`NodeCache.dfy`), the node count that defines
a tie (`NodeCount.dfy`), and the reports read from the disk (`ScsiReport.dfy`).

A node is *quorate* in `SplitBrain.dfy` when its visible nodes plus its own last poll reach
half of the nodes plus one (Design.md:97-100). A node outside the winner's component may need
up to three completed heartbeats past its deadline before its last poll is 0 for good:
`BeatsNeeded` is 3 while a heartbeat of the time before the split is still in flight, 2 in
RECV_VOTE, 1 in the other voting states, and 0 once settled.

## Where the code and Design.md differ

The model follows the code.

- Design.md:361-363 lets START check the keys of visible nodes. The check is commented out
  (qdiskd/algorithm.c:320-322) and made only at start-up (qdiskd/algorithm.c:115-128).
- Design.md:369-371 lets IDLE resign as soon as the holder is out of sight. The code waits for
  the deadline and skips the poll until then (qdiskd/algorithm.c:339-345;
  `NodeRuns.IdleResignsAfterDeadline`).
- Design.md:240-242 sends a holder that falls below half straight to RESIGNED. The code goes
  through RELEASE_QDISK and IDLE, and polls 1 twice on the way (qdiskd/algorithm.c:391-409).
  `TieEnds.HolderBelowHalfPollsOneTwice` is that run, and `NodeRuns.PollsOneBelowHalf` says exactly
  which heartbeats below half poll 1.
- RECV_VOTE renews its deadline only while the tie lasts, not whenever the holder is visible
  (qdiskd/algorithm.c:383).
- Design.md:333-335 says that an empty key file is filled with a new key. The code generates a
  key only if there is no file, and refuses a blank one (persistent_reserve/device.c:100-115).
  A file with text but no number gives key 0.
- The node count is exact for every list except one whose first position is 2^32 - 1, the
  initial value of the loop's memory (qdiskd/cmap.c:193). `NodeCountIsDistinctPositions`
  states this as an if-and-only-if.
- The reader of registered keys keeps every line that begins with hexadecimal digits, also one
  that does not hold a key (persistent_reserve/scsi_device.c:256-259).
  `ScsiReport.VendorLineReadsAsKey` gives such a line and `ScsiReport.KeysAnswerForTheDisk` the
  exact condition.
- The list of node keys can contain numbers that are nobody's key, because malformed extra
  info leaves memory unset (qdiskd/vquorum.c:344). `NodeCache.CleanWhateverTheMemory` says exactly
  when it cannot.

## Model

| member | source | states |
|---|---|---|
| Cluster.MutualExclusion | qdiskd/algorithm.c:227-256 | In every run of N nodes under any interleaving of single commands, any lost command or lost reply, any crashes, stops and restarts, and any operator commands that are harmless when they happen: at most one node is in HAVE_QDISK, the disk's holder is that node's key, and no daemon ends with "Lost disk reservation", a missing registration or a holder of key 0 (Design.md:432-434) |
| Cluster.HarmlessIsExact | persistent_reserve/qdisktool.c:114-123 | While no node in service has missed its cutoff, an operator command is harmless if and only if no run of the nodes after it breaks what mutual exclusion promises. Harmless is what can be looked up before: nobody in service loses its registration, and no reservation is released under a node in HAVE_QDISK |
| Cluster.OperatorKeepsInv | persistent_reserve/scsi_device.c:181-211 | A preempt, release or other operator command keeps the cluster invariant if and only if it is harmless |
| Cluster.HarmShows | persistent_reserve/scsi_device.c:181-211 | After a command that is not harmless, with no node in service past its cutoff, exclusion is broken at once, or there is a run in which the victim ends because its key is gone |
| Cluster.DoomedEnds | qdiskd/algorithm.c:272-298 | A node in service whose key has been removed can come to its end over the missing registration, from any point of its heartbeat |
| Cluster.OperatorAbortLosesReservation | persistent_reserve/scsi_device.c:181-211 | An abort under a resting HAVE_QDISK node, by any registered key: the node's heartbeats end in abort() if the key is its own, and with a missing registration if it is another |
| Cluster.HolderMatchesState | qdiskd/algorithm.c:357-409 | In every state of a run, each serving node past START holds the disk exactly when its state is HAVE_QDISK or RELEASE_QDISK, if and only if no reply is lost behind a reserve or release that takes effect; operator commands that disturb nobody may happen too |
| Cluster.OwnTruth | qdiskd/algorithm.c:357-409 | The same for one step of one node: of all faults on all commands, only those two lost replies break the correspondence |
| Cluster.OperatorKeepsTruth | persistent_reserve/qdisktool.c:114-123 | An operator command keeps the correspondence if and only if it is harmless and moves no reservation to or from a node past START, or about to be |
| Cluster.LostReplyHidesReservation | qdiskd/algorithm.c:357-375 | One of the two lost replies: a reserve that takes effect unheard after the deadline leaves a node that holds the disk without knowing it, while mutual exclusion still holds |
| Cluster.FreeDiskIsTaken | qdiskd/algorithm.c:330-364 | A tie on a free disk is broken: two fault-free heartbeats of an IDLE node, from any state that keeps the cluster invariant, end with that node in HAVE_QDISK, holding the disk, having polled 1 twice |
| Cluster.HistoryIsRun | qdiskd/algorithm.c:188-476 | Each node of a cluster run goes through a run of the single-node machine, which carries theorems about one node over to the cluster |
| WriteOnce.ReservationIsWriteOnce | qdiskd/algorithm.c:248-255 | A run that keeps the truth, a stable tie, nobody releasing, and a holder that neither stops nor misses its cutoff: once taken, the reservation has the same holder at every later point of the tie, and that node is in HAVE_QDISK |
| SplitBrain.NoLastingSplitBrain | qdiskd/algorithm.c:315-451 | Fixed partition, a winner of a tied component in HAVE_QDISK reached by a run that keeps the truth: after each outside node's needed late heartbeats (three at most) no outside node polls 1 again, and every quorate node is in the winner's component, for runs of any length, with any commands and replies lost during the split |
| SplitBrain.WonKeepsTruth | qdiskd/algorithm.c:391-409 | While a winner in HAVE_QDISK holds the disk, no lost reply of any node's command hides who holds it |
| SplitVotes.BothHalvesCanVote | qdiskd/algorithm.c:330-338 | Before a half has won, both can be quorate at once: for every cluster in two halves with a free disk there is a run, from the very start into the split, after which a node of each half has polled 1 and is quorate |
| SplitVotes.SilentUnlessStillVoting | qdiskd/algorithm.c:330-389 | After a half has won, a node outside it that has not missed its cutoff in RECV_VOTE polls 1 again in some run of the split if and only if it is in RECV_VOTE, or has a heartbeat from before the split in flight in which IDLE saw a majority, or a tie with the winner or a free disk, or RESERVE_DISK saw the winner |
| SplitVotes.SilentUnlessReceiving | qdiskd/algorithm.c:381-389 | For a node whose heartbeats belong to the split, that is if and only if it is in RECV_VOTE |
| SplitVotes.OtherSideCanVote | qdiskd/algorithm.c:318-389 | So the other side as a whole can still vote 1 if and only if one of its nodes is in one of these situations |
| SplitVotes.SilentForGood | qdiskd/algorithm.c:318-389 | One direction: a node in no such situation polls only 0 or nothing, in every run of the split, over stops, crashes and restarts |
| SplitVotes.GivesVote | qdiskd/algorithm.c:381-389 | The other direction, as a run: from any command of such a heartbeat, and from RECV_VOTE within its cutoff, the node goes on to poll 1 |
| SplitBrain.OutsiderGivesUp | qdiskd/algorithm.c:330-389 | The same for one outside node alone: its last poll becomes 0 after the late heartbeats it needs, it never polls 1 again, and it is not quorate |
| SplitBrain.BeatsPastDeadlineAreLate | qdiskd/algorithm.c:339-389 | The deadline of an outside node no longer moves once its heartbeat belongs to the split, so from the moment its clock has passed it every completed heartbeat counts as late |
| SplitSettles.SplitCanSettle | qdiskd/algorithm.c:188-476 | The late heartbeats can always happen: from every state with a winner, wherever the other nodes are in their lives, a run exists after which no outside node has a vote or is quorate |
| SplitSettles.ComesToRest | qdiskd/algorithm.c:115-476 | From any point of its life - serving, starting, stopping or down - an outside node can come to rest in service |
| SplitSettles.BeatCanComplete | qdiskd/algorithm.c:227-475 | From any command of an outside node's heartbeat that can still complete, that is with node keys fetched and no stray release under way, fault-free service ends it as a late heartbeat with the node at rest; the other heartbeats are skipped and end as `ComesToRest` says |
| SplitTimes.OutsideVotesEndInTime | qdiskd/algorithm.c:210-475 | The same with clock bounds, for each node outside the winner's component in any state and at any point of its life, over stops, crashes and restarts. With heartbeats of length at most d and e no earlier than its clock, its cutoff and its deadline + T + d (and start + 2T + 2d for a heartbeat in flight from before the split), it polls no 1 after e+d. After e+T+2d its last vote is 0 and it is not quorate, in service past START, and if it is not started again after a crash also in START, while it starts, and once it is down in any way but a crash |
| SplitTimes.OutsiderRunIsLosing | qdiskd/algorithm.c:227-270 | From the first heartbeat that belongs to the split on, what an outside node sees are losing snapshots, so the theorems about the losing side apply to it |
| SplitBrain.OutsideHasAtMostHalf | Design.md:426-434 | When the winner's component has exactly half of the nodes, any other component has at most half |
| SplitBrain.WinningHalfStaysQuorate | qdiskd/algorithm.c:381-401 | While the split lasts, the winner and every node of its component in IDLE, RESERVE_DISK or RECV_VOTE poll 1 at each completed heartbeat and are quorate from the first one on |
| StaleVote.StaleVoteEnds | qdiskd/algorithm.c:210-215 | A node in any state but HAVE_QDISK and RELEASE_QDISK that from now on sees no majority and an invisible holder, with e no earlier than its clock, its cutoff and its deadline + T + d: no poll of 1 after e+d, none after a poll of 0, and by e+T+2d it has polled 0 or left service. T is the timeout and d bounds the length of a heartbeat |
| StaleVote.RenewedVoteEnds | qdiskd/algorithm.c:381-389 | For a RECV_VOTE node whose deadline was set at r these times are r+2T+2d and r+3T+3d; d = 0 gives r+2T and r+3T |
| Heartbeats.LastSightOfTheHolder | qdiskd/algorithm.c:331-335 | The same bounds from the last heartbeat in IDLE or RECV_VOTE that sees the holder in a tie and reads the clock at r: that heartbeat sets the deadline and the cutoff they start from |
| Heartbeats.HealthyHeartbeatBuysTime | qdiskd/algorithm.c:339-351 | After an IDLE heartbeat above half whose switch reads time r, no heartbeat of a following tie with the holder out of sight resigns or votes while it reads a time up to r+T |
| Heartbeats.EndOfHeartbeat | qdiskd/algorithm.c:331-384 | A heartbeat that ends sets the cutoff to its last clock reading + T, and the deadline to its switch's reading + T exactly in IDLE above half, in IDLE in a tie that it acts on, and in RECV_VOTE in a tie with the holder in sight; otherwise the deadline stays |
| Heartbeats.VoteOfHeartbeat | qdiskd/algorithm.c:315-451 | Which heartbeats poll 1, which poll 0 and which skip the poll, as one condition over all states, and that they give no other poll |
| Heartbeats.StateAfterHeartbeat | qdiskd/algorithm.c:315-417 | For each of the seven states, exactly the heartbeats that end in it: among them the quorate gate of START and RESIGNED, and the retry of a refused reserve on a free disk up to the deadline |
| Heartbeats.WithinHeartbeat | qdiskd/algorithm.c:227-298 | Until it ends, a heartbeat changes neither state nor deadline nor cutoff and gives no vote; so a heartbeat that is given up leaves them as they were |
| Heartbeats.LateHeartbeat | qdiskd/algorithm.c:210-215 | A heartbeat after the cutoff issues release and unregister, withdraws the vote and ends the process |
| Heartbeats.HeartbeatUnread | qdiskd/algorithm.c:227-232 | A heartbeat that cannot read whether the disk is reserved is given up after that one command |
| Heartbeats.HeartbeatOnFreeDisk | qdiskd/algorithm.c:258-298 | On a free disk, for every sequence of replies: which commands follow, when the heartbeat is given up, when the process ends, and that it runs to its end in all other cases |
| Heartbeats.HeartbeatOnHeldDisk | qdiskd/algorithm.c:234-298 | The same on a held disk, with the end on a holder of key 0 and the release of a stray reservation exactly in START, IDLE, RECV_VOTE and RESIGNED |
| Heartbeats.StopDialogue | qdiskd/algorithm.c:478-487 | A stop issues exactly release and unregister, whatever the replies, and leaves a vote of 0 |
| StartStop.StopLeavesTheDisk | qdiskd/algorithm.c:478-487 | In the cluster, a stop that meets no fault takes exactly the node's own registration and reservation off the disk and leaves the other nodes alone |
| StartStop.StartDialogue | qdiskd/algorithm.c:115-183 | A start, for every list of node keys and every sequence of replies: the commands it issues, and whether it comes into service or ends with which reason |
| StartStop.StartNeedsRegisteredNodes | qdiskd/algorithm.c:125-128 | A start comes into service only if every node in sight is registered; otherwise it ends after reading the keys, with a vote of 0 |
| StartStop.ValidationReadsTheDisk | qdiskd/algorithm.c:490-521 | In the cluster, a fault-free validation goes on if and only if every node key is registered on the disk |
| StartStop.EndResets | qdiskd/algorithm.c:207-208 | However a process ends, the next one begins in START with deadline 0 and no cutoff |
| NodeRuns.LosingSideStaysSilent | qdiskd/algorithm.c:318-379 | While snapshots show a tie, or less, with an invisible other holder, {START, IDLE, RESERVE_DISK, RESIGNED} is closed, up to leaving service, and polls only 0 or nothing, for every clock and quorate sequence |
| NodeRuns.LeavingWithdrawsVote | qdiskd/algorithm.c:478-487 | In every run, a process that has ended in any way but a crash and a lost reservation has left a vote of 0 |
| NodeRuns.OnlyStaleVotersPollOne | qdiskd/algorithm.c:381-409 | Under such snapshots only RECV_VOTE and RELEASE_QDISK can still poll 1 |
| NodeRuns.WinningSideKeepsItsVote | qdiskd/algorithm.c:330-389 | While snapshots show a tie with a visible other holder, IDLE, RESERVE_DISK and RECV_VOTE lead to RECV_VOTE, every completed heartbeat polls 1, and RESIGNED is not reached |
| NodeRuns.MinorityStaysQuiet | qdiskd/algorithm.c:318-349 | Below half, a node in START, IDLE or RESIGNED stays in these states and never polls 1, whatever the quorate flag does |
| NodeRuns.MinorityResigns | qdiskd/algorithm.c:317-417 | Below half, every node past START passes through RESIGNED within rank + time to deadline + failed releases completed heartbeats (Design.md:438-441) |
| NodeRuns.PollsOneBelowHalf | qdiskd/algorithm.c:315-417 | A heartbeat that completes below half polls 1 if and only if it is in RECV_VOTE, HAVE_QDISK or RELEASE_QDISK, or in RESERVE_DISK and gets the disk or sees its holder |
| TieEnds.HolderBelowHalfPollsOneTwice | qdiskd/algorithm.c:391-409 | A holder that falls below half: three fault-free heartbeats poll 1, 1 and 0, release the disk and end in RESIGNED, where the design has it resign at once (Design.md:240-242) |
| NodeRuns.MajorityStaysIdle | qdiskd/algorithm.c:346-351 | Above half and quorate, IDLE is never left and every completed heartbeat polls 1 |
| NodeRuns.MajorityServes | qdiskd/algorithm.c:317-417 | Above half and quorate, every state reaches IDLE within rank + time to deadline + failed releases completed heartbeats, then stays and polls 1 each time (Design.md:442-444) |
| TieEnds.ClusterRecovers | qdiskd/algorithm.c:317-417 | After a heal, with a run that keeps the truth and enough completed heartbeats, every node is in IDLE, no node of the cluster holds the disk, and each completed heartbeat polls 1 from then on (Design.md:442-444) |
| TieEnds.NodeRecovers | qdiskd/algorithm.c:346-351 | The same for one node |
| NodeMachine.StepKeepsPast | qdiskd/algorithm.c:188-476 | Whatever happens to a node, its clock does not run back, votes given are never taken off the record, and at most one heartbeat completes per step |
| QdiskDaemon.HeartbeatIsRun | qdiskd/algorithm.c:188-476 | One call of algorithm_run is a run of the single-node machine that ends at rest or with the process gone |
| QdiskDaemon.StartIsRun | qdiskd/algorithm.c:115-183 | So is one call of algorithm_init |
| QdiskDaemon.DriveIsRun | qdiskd/algorithm.c:188-476 | Replies taken one by one until nothing is in flight form a run of the machine |
| QdiskDaemon.Daemon.constructor | qdiskd/algorithm.c:207-208 | The initial values of the static variables: state START, deadline 0, no cutoff |
| QdiskDaemon.Daemon.AlgorithmInit | qdiskd/algorithm.c:115-183 | Start-up issues the commands and ends in the state the machine prescribes; unless the node keys can be fetched and are all registered, it ends with BootFailed after reading the registered keys |
| QdiskDaemon.Daemon.InitRelease | qdiskd/algorithm.c:130-143 | The part of start-up that gives up a reservation left by an earlier run, including the exit on a holder of key 0 |
| QdiskDaemon.Daemon.InitRegister | qdiskd/algorithm.c:145-183 | The part of start-up that joins votequorum, registers and shares the key, and unregisters again if sharing fails |
| QdiskDaemon.Daemon.AlgorithmRun | qdiskd/algorithm.c:188-298 | A heartbeat issues its commands in the machine's order and ends in the machine's state for every reply sequence: cutoff, skipped heartbeats, stray reservation, missing key |
| QdiskDaemon.Daemon.RunState | qdiskd/algorithm.c:315-475 | The state switch and the poll leave the state, deadline, cutoff and votes that the machine prescribes, whose results `Heartbeats` fixes state by state |
| QdiskDaemon.Daemon.RunReserve | qdiskd/algorithm.c:357-379 | RESERVE_DISK: the four outcomes of a reserve command, and the skipped poll |
| QdiskDaemon.Daemon.RunRelease | qdiskd/algorithm.c:403-409 | RELEASE_QDISK: leave only if the release succeeded or the disk is read as free |
| QdiskDaemon.Daemon.AlgorithmStop | qdiskd/algorithm.c:478-487 | The log grows by exactly release and unregister, a poll of 0 is given and the process is down, whatever the replies; as the machine prescribes |
| QdiskDaemon.FindHolder | qdiskd/algorithm.c:265-270 | The early-exit search sets its flag exactly when the holder key is nonzero and among the node keys |
| QdiskDaemon.ValidateKeys | qdiskd/algorithm.c:501-513 | The nested search accepts exactly when every node key is registered |
| NodeCache.CallbacksRefineMap | qdiskd/vquorum.c:69-117 | Over any interleaving of membership and extra-info callbacks, node ids stay unique and lookup equals the reference map: survivors keep keys, new nodes have 0, departed ones are gone, announcements overwrite |
| NodeCache.RenewedRefines | qdiskd/vquorum.c:84-108 | The membership part of that refinement |
| NodeCache.AnnouncedRefines | qdiskd/vquorum.c:174-207 | The extra-info part of that refinement |
| NodeCache.RenewedKeepsMembers | qdiskd/vquorum.c:86-103 | A renewed list has exactly the members in front of the quorum device, in order, with their states |
| NodeCache.AnnouncedKeepsOthers | qdiskd/vquorum.c:187-206 | An announcement changes one key, or adds one entry with state 0 at the end; everything else stays |
| NodeCache.ShareTextScans | qdiskd/vquorum.c:307-312 | "Qdsk" followed by a printed key is read back as that key, for all 64-bit keys |
| NodeCache.ShareTextIs | qdiskd/vquorum.c:312 | The shared text is the eye catcher, one blank and 16 lower-case hexadecimal digits |
| NodeCache.OtherTextAnnouncesNothing | qdiskd/vquorum.c:183-186 | Text without the eye catcher announces no key |
| NodeCache.NodeKeyIsShared | qdiskd/vquorum.c:323-348 | A listed node has its listed key, a node not in the list the key it shared as extra info, and without extra info the lookup is an error |
| NodeCache.SharedKeyIsLookedUp | qdiskd/vquorum.c:174-207 | The key one node shares is the key every receiver then looks up for it |
| NodeCache.KeysInSightAre | qdiskd/vquorum.c:350-375 | The key list fails exactly when some visible node's key cannot be fetched, and otherwise holds exactly the nonzero keys of visible nodes |
| NodeCache.KeysInOrder | qdiskd/vquorum.c:358-369 | The list of two groups of nodes is the list of the first followed by that of the second, and fails if either fails; with `KeyOfOne` this fixes order and number of the keys |
| NodeCache.KeyOfOne | qdiskd/vquorum.c:358-369 | The list of one node is its key, nothing if it has none, and fails if it cannot be fetched |
| NodeCache.HolderVisibility | qdiskd/algorithm.c:227-270 | At the switch the disk counts as reserved exactly when the holder key is nonzero, and the holder counts as visible exactly when the disk is reserved and a visible node has that key |
| NodeCache.Cache.PreviousKey | qdiskd/vquorum.c:94-99 | The inner search carries over the known key, or 0 for a new node |
| NodeCache.Cache.QuorumNotification | qdiskd/vquorum.c:69-117 | The callback replaces the list by the renewed one up to the quorum device, sets the quorate flag, and shares the node's key again if there is one |
| NodeCache.Cache.NodelistNotification | qdiskd/vquorum.c:134-154 | The visible list is copied into a buffer that grows when it is too small and never shrinks, the ring id is stored, and the keys stay |
| NodeCache.Cache.ExtraInfoNotify | qdiskd/vquorum.c:174-207 | The announced key overwrites the entry or is added; malformed text gives 0 |
| NodeCache.Cache.GetNodeKey | qdiskd/vquorum.c:323-348 | The cached key, else the key in the extra info, else an error; malformed text leaves the caller's value |
| NodeCache.Cache.GetNodeKeyList | qdiskd/vquorum.c:350-375 | The in-place compaction fails exactly when a key cannot be fetched; otherwise it returns the nonzero keys of the visible nodes in order if and only if every malformed text finds 0 in the buffer, and always at least those keys |
| NodeCache.CleanWhateverTheMemory | qdiskd/vquorum.c:344-369 | The list is right for every content of the fresh buffer if and only if each node with malformed text comes right after a node without a key |
| NodeCount.NodeCountIsDistinctPositions | qdiskd/cmap.c:190-226 | For sorted keys with canonical positions, remembering the last position counts the distinct ones, if and only if the first one is not 2^32 - 1; otherwise it is one short |
| NodeCount.PositionsAreThose | qdiskd/cmap.c:204-208 | A position is among the counted ones exactly if some key converts to it |
| NodeCount.KnownKeys | qdiskd/cmap.c:205 | Keys as cmap has them, with position 0 and with two digits, and keys that do not convert |
| NodeCount.SortedIsContiguous | qdiskd/cmap.c:209-215 | Sorted keys that name their positions canonically have each position's keys together |
| NodeCount.ChangesCountDistinct | qdiskd/cmap.c:209-218 | On contiguous positions the number of changes is the number of distinct values, less one if the first equals the initial memory |
| NodeCount.StemScans | qdiskd/cmap.c:205-208 | A key with a canonical stem converts to that stem's position, cut to 64 and then to 32 bits, exactly if a name follows |
| NodeCount.UpdateNodeCount | qdiskd/cmap.c:190-226 | For sorted keys with canonical positions the loop returns the size of the set of positions that keys convert to, less one exactly if the first key that converts has position 2^32 - 1; for all keys, the number of changes of position |
| ReserveKey.OneByteApartKeysDiffer | persistent_reserve/device.c:84-89 | Host names of equal length that differ in exactly one byte get different keys (Design.md:14-17) |
| ReserveKey.OneByteApartHashesDiffer | persistent_reserve/device.c:56-69 | Such names hash differently for every initial value |
| ReserveKey.RoundUndone | persistent_reserve/device.c:60-64 | A hash round can be undone, so it is a bijection on the 32-bit state |
| ReserveKey.FinalMixUndone | persistent_reserve/device.c:65-67 | So is the final mixing |
| ReserveKey.RoundsInjective | persistent_reserve/device.c:60-64 | Different states stay different over every suffix |
| ReserveKey.GeneratedKeyIsMarked | persistent_reserve/device.c:87-88 | A generated key has c070 in its top 16 bits and is never 0 (Design.md:335-336) |
| ReserveKey.GeneratedKeyBits | persistent_reserve/device.c:86-88 | The bits of a generated key: c070, the low 16 bits of the hash with initial value 1, and the 32 bits of the hash with initial value 0 |
| ReserveKey.KnownHashes | persistent_reserve/device.c:56-69 | Known values of the one-at-a-time hash |
| ReserveKey.JenkinsOneAtATimeHash | persistent_reserve/device.c:56-69 | The loop over 32-bit words computes the hash that the lemmas are about |
| ReserveKey.GenerateReserveKey | persistent_reserve/device.c:75-93 | The key joins both hashes, and the key file holds its 16-digit text |
| ReserveKey.DeviceKey | persistent_reserve/device.c:95-119 | A key file that is present decides the key, and it is an error if it cannot be opened or is blank; otherwise a new key is generated, and the file left behind loads as that key |
| ReserveKey.KeyFileRoundTrip | persistent_reserve/device.c:110-115 | Every 64-bit key written to a key file is read back, whatever text follows it |
| ReserveKey.KeyFileWithoutKey | persistent_reserve/device.c:110-115 | A key file is refused exactly if it holds nothing but white space, and gives key 0 if it begins with no number |
| Scanf.KeyTextScans | persistent_reserve/device.h:49 | Sixteen padded hexadecimal digits scan back to the number printed, for every 64-bit number |
| Scanf.ScanSignedDigits | qdiskd/cmap.c:205 | Signed numbers: negated modulo 2^64, and cut to 2^64 - 1 |
| Scanf.NumeralValue | persistent_reserve/scsi_device.c:444-454 | A printed number without leading zeros has the value it was printed from, in every base |
| ScsiReport.ReadReservation | persistent_reserve/scsi_device.c:437-522 | On every line sequence the result is what the output means: the first generation line decides, and for a reservation the first key line after it gives the key |
| ScsiReport.MeaningIsUnique | persistent_reserve/scsi_device.c:466-522 | That meaning leaves no choice, so it determines the result |
| ScsiReport.QueriesAgree | persistent_reserve/scsi_device.c:152-161 | On the same output the owner query gives a key exactly when the disk counts as reserved, and fails when the reservation query fails |
| ScsiReport.QueriesFailTogether | persistent_reserve/scsi_device.c:437-522 | For every output and exit status the reservation query fails if and only if the status is not 0, or there is no status line, or the first one announces a reservation and no key line follows; then the owner query fails too |
| ScsiReport.ReadingTells | persistent_reserve/scsi_device.c:466-497 | With exit status 0, whatever other lines are there, the queries answer with what the first status line and the first key line after it say |
| ScsiReport.ReportReadsBack | persistent_reserve/scsi_device.c:444-454 | Printing a reservation state in the documented layout and reading it are inverse |
| ScsiReport.QueriesAnswerForTheDisk | persistent_reserve/scsi_device.c:283-295 | Read from such a report, both queries answer as the abstract disk does |
| ScsiReport.StatusLineTells | persistent_reserve/scsi_device.c:474-482 | The status line contains the announcement exactly when there is a reservation |
| ScsiReport.KeyBetweenBlanks | persistent_reserve/scsi_device.c:495 | A key line and a line of the key list are read with any white space, or none, in the places the formats allow |
| ScsiReport.GenerationBetweenBlanks | persistent_reserve/scsi_device.c:477 | So is a status line |
| ScsiReport.GetRegisteredKeys | persistent_reserve/scsi_device.c:213-275 | For any number of lines and doublings the buffer holds exactly the scanned keys, in order and in bounds |
| ScsiReport.KeysAnswerForTheDisk | persistent_reserve/scsi_device.c:219-274 | Read from a header and one line per key, the reply is the abstract disk's if and only if no header line reads as a number; otherwise the header's numbers come on top of the keys |
| ScsiReport.VendorLineReadsAsKey | persistent_reserve/scsi_device.c:256-259 | A header line that breaks it: a vendor's name that begins with hexadecimal digits |
| ScsiReport.OrdinaryLineIsSkipped | persistent_reserve/scsi_device.c:256-259 | A line that begins with neither a sign nor a hexadecimal digit is never read as a key |
| ScsiReport.ValidateNodeQuorumDiskKeys | qdiskd/algorithm.c:490-521 | Start-up validation succeeds exactly when the keys can be read and every node key is among them |

## Left out

- SplitBrain.NoLastingSplitBrain: that the late heartbeats complete is a hypothesis, since a node that skips every heartbeat leaves service by its cutoff instead. `SplitSettles.SplitCanSettle` shows that they always can. A node that crashes keeps its last vote; when votequorum drops the vote of a dead process is not modelled.
- ReserveKey.OneByteApartKeysDiffer: nothing is stated for names that differ in more than one byte or in length. The cluster theorems take distinct nonzero keys as given, as Design.md:14-17 demands.
- Two votes of 1 at the same instant in both halves: the code does not exclude them. `SplitVotes.BothHalvesCanVote` is a run to that state from every start on a free disk, `SplitVotes.OtherSideCanVote` says exactly when the other half can still vote 1 after one half has won, and `SplitTimes.OutsideVotesEndInTime` for how long.
- Delivery of polls: a poll counts when it is handed to votequorum. The ring id it carries, failed polls and the votequorum device timeout are not modelled.
- The report parser for NVMe disks and its raw exit status (persistent_reserve/nvme_device.c:100-197). Reserve, release and register on NVMe are covered by the abstract disk, and any nonzero fetch result is an error.
- Running sg_persist and nvme, pipes, line splitting by buffer size, device detection, multipath and device ids. Their effect is an abstract disk, a sequence of lines and an exit status.
- The main loop, signals, and libcorosync, libqb and systemd internals. Callbacks come with arbitrary arguments; heartbeats come at arbitrary times.
- The cmap change callbacks and configuration reading, including a key given in the configuration. Design.md:310-311 and qdiskd/cmap.c:133 disagree on the default heartbeat (half or a quarter of the token timeout), and the heartbeat interval is not fixed here.
- Expected votes, total votes, the `old_*` variables, logging and blackbox dumps: they influence neither votes nor the disk.
- Integer widths of time and node counts: clocks and deadlines do not wrap at 2^64, and twice the number of visible nodes does not wrap at 2^32. Hashes, keys and node positions have their exact widths.
- Allocation failures, and errors while reading a key file that could be opened.
- The command-line tool's own options and messages (persistent_reserve/qdisktool.c). Its commands are operator events, each of which may happen at any time.
- Conversions of "0x" without digits after it are taken to fail; C libraries differ here.
