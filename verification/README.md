# Verified models of sisfila and its vendored Redis 5.0.0

This project models, in Dafny, the parts of the repository with the most state and branching, and proves what they promise:

- **Redis Cluster** (`redis-5.0.0/src/cluster.c`): the election of a replica, the configuration epochs, the slot table with its bitmaps, the propagation of slot claims, and the slot ranges of nodes.conf.
- **The append only file** (`redis-5.0.0/src/aof.c`): printing and loading commands, recovery of a truncated log with and without MULTI blocks, flushing to a disk that may write short, the background rewrite with its pipes and handshake, and the rewriting of the dataset.
- **Blocked clients** (`redis-5.0.0/src/blocked.c`): the index between clients and keys and the loop that serves them.
- **Bit operations** (`redis-5.0.0/src/bitops.c`): population count, first bit, BITOP, bit fields and their overflow.
- **The linked list** (`redis-5.0.0/src/adlist.c`).
- **The queues of a colegiado** (`app/models`): calling the next person and the position shown to a student.

## How to read it

`ClusterNode` holds the transitions of one cluster node as functions, `ClusterRun` the global state machine over them with messages in flight, and `ClusterServer` the imperative code, proved to compute those functions. `Election` and `Epochs` prove what holds over all runs, `Failover` that an ordinary failover succeeds and what is refused, and `ElectionRuns` has the runs in which election safety fails without its provisos. `SlotTable` is the class with the slot table and the bitmaps; `Rebind` is what a claim does to the table, and `Convergence` is about runs of claims.

The log is scanned by `LogScan` and replayed by `LogReplay`, both over any encoding (`Sequences` is about sequences cut into entries); `AofProtocol` is the encoding itself, `AofLoad` the loader, `AofRecovery` and `AofTransactions` say what loading a cut file recovers, and `AofErrors` what a corrupt one ends in. `AofRewrite` is the rewrite as a protocol over an arbitrary dataset (`World`), with the switches between AOF off, waiting and on; `RewriteOutcome` says what a rewrite ends in, and `RewriteBuffer` is the block list of the parent. `Dataset`, `ObjectRewrite` and `DatasetRewrite` give the concrete dataset for which a rewrite is proved to be a log of the dataset, so that the theorems of `AofRewrite` apply to it.

`BlockedIndex` is the index between clients and keys as values, `Serving` says what serving clients does to the data, the replies and the clients, `BlockedSteps` what each step keeps, `Fairness` is about the order of clients, `ServingOrder` about the order of values, `Turns` about a whole call of the loop, and `Blocked` is the class. Its ghost field `forgotten` holds the keys that were overwritten without a signal while somebody waited for them; every other operation keeps the promise that nobody waits for data that is there, except for those keys.

Numbers are unbounded in Dafny; where a C width matters it is written out (32-bit products and 64-bit conversions in `Popcount` and `BitField`). `BitMath` has the bitwise and on natural numbers. `Hiding.Unfold` guards definitions that the verifier should use as a whole and unfold only where asked.

## Where the code does not do what one might expect

- Election safety needs two provisos that the code does not enforce. No vote of an old attempt may be counted between the reset of the count and the next request (`cluster.c:3018-3034`, `2045-2057`), and no master may vote in an epoch that is its own configEpoch already, as the winner of an epoch can (`cluster.c:2717-2798` has no such test). `UntimelyRunElectsTwo` and `UnfairRunElectsTwo` are runs that elect two replicas in one epoch without one of them, although the nodes agree on the electorate and its size all the time.
- A winner does not always have the epoch it was elected in: CLUSTER BUMPEPOCH on a replica that waits for votes gives it a greater one, which it keeps (`cluster.c:3102`). `WinnerEpochIsExact` says when, `BumpedWinner` is the family of such winners.
- An UPDATE about an epoch that is already known is dropped even if its slots are not; `UpdateMatchesPing` says exactly when this differs from a PING, `UpdateCanBeLost` is an instance.
- A log cut inside a command of a MULTI block is truncated to a point inside the block, behind a MULTI without an EXEC. What is appended later is read inside that block. Without a block of its own it is queued, not executed, and cut off the file by the next load. With one, the EXEC of that block runs everything queued, so that the half transaction which the recovery did not execute takes effect after all (the nested MULTI is an error reply, `multi.c:86-90`). `AppendsSurviveRecovery` says what is executed and that appends do what they should if and only if the log was not cut so, `AppendsAfterCut` says it for every such cut, and `AppendIsLost` and `HalfBlockRuns` are instances.
- `handleClientsBlockedOnKeys` is fair for a key whose clients wait for the same type, and not with clients of both, as its comment says (`blocked.c:237-245`): `Fair` is proved of every call, `MixedKeyIsUnfair` is the step that reverses two clients.
- `setKey` on an existing key does not signal the key. `SetKey` says exactly when the waiters of a key are forgotten, `ForgottenWaiter` is a run that ends so; `HandleClientsBlockedOnKeys` is proved for such states too.
- `posicao_total` counts active filas only, while the next person is taken from inactive ones too, and fails on an active fila that never had a vaga. `ShownIsExact` says exactly when the number shown is right; `InactiveFilaIsNotCounted` and `EmptyFilaFails` are instances.
- The branch of the `proximo` action for a fila whose position equals its count (`colegiados_controller.rb:109`) is never taken, because only a fila with a smaller position is returned.

## Model

| member | source | states |
|---|---|---|
| Election.ElectionSafety | redis-5.0.0/src/cluster.c:2706-2807 | over every run of messages in any order, with loss and restarts, that meets the two provisos, at most one replica wins an epoch if in every state so far only an agreed set of masters sees itself as able to vote in it, while votes are asked for, and its candidates count on a cluster at least that large |
| Election.ElectorateDecides | redis-5.0.0/src/cluster.c:2714-2798 | what the nodes believe about masters, slots and sizes decides who voted in the epoch and which sizes its winners used |
| Election.TwoWinnersTakeMoreVoters | redis-5.0.0/src/cluster.c:2949-2949 | whatever the nodes believe, two winners of one epoch took two quorums of different voters |
| Election.ReachableInv | redis-5.0.0/src/cluster.c:2946-3114 | every state of such a run has one vote per master and epoch, votes and requests only for attempts their candidate has started, a count backed by votes that arrived for the running attempt, and a quorum of votes behind every win |
| Election.StepKeepsInv | redis-5.0.0/src/cluster.c:3018-3110 | each step of the protocol keeps that invariant |
| Election.VoteKeepsInv | redis-5.0.0/src/cluster.c:2706-2807 | granting a vote and recording its epoch keeps one vote per master and epoch |
| Election.AckKeepsInv | redis-5.0.0/src/cluster.c:2045-2057 | counting a vote keeps the count backed by distinct arrived votes |
| Election.QuorumsMeet | redis-5.0.0/src/cluster.c:2949-2949 | two quorums over the same electorate share a voter, even when computed from different sizes |
| ElectionRuns.UntimelyRunElectsTwo | redis-5.0.0/src/cluster.c:3018-3034 | a fair run with an agreed electorate in which a vote of an old attempt is counted after the reset, and two replicas win the same epoch |
| ElectionRuns.UnfairRunElectsTwo | redis-5.0.0/src/cluster.c:2717-2798 | a run without stale votes and with an agreed electorate in which the winner of an epoch votes in it, and a second replica wins it |
| Failover.OrdinaryFailover | redis-5.0.0/src/cluster.c:2706-3114 | from every state of every run: if a replica of a failed master with slots, and a quorum of masters that see the failure, know no newer epoch, have not voted in the next one and know no newer configuration of the slots asked for, then starting an election without force, their requests and their votes make the replica win, with all votes recorded; it is a master with the epoch of the election then and owns exactly the slots of its old master besides its own |
| Failover.RefusedVote | redis-5.0.0/src/cluster.c:2714-2798 | no vote is recorded or sent for a replica whose master is up without force, for a master or unknown replica, by a node without slots or that voted in the epoch, for an older epoch, too soon after the last vote, or with a newer configuration of a slot asked for |
| Failover.IgnoredVote | redis-5.0.0/src/cluster.c:2045-2057 | a vote of a node that is unknown, no master or without slots, or of an older epoch is not counted |
| Failover.WinNeedsFailure | redis-5.0.0/src/cluster.c:2974-2978 | without a manual failover only a replica of a failed master with slots wins, and only with a quorum |
| Failover.SizeCountsServing | redis-5.0.0/src/cluster.c:3793-3813 | the size that quorums are computed from is the number of masters that own a slot |
| Failover.WinnerHasTheEpoch | redis-5.0.0/src/cluster.c:3101-3107 | in every run a winner that got no other epoch since it asked has the configEpoch of its win, which is greater than all it knew of when it asked |
| Failover.WinnerEpochIsExact | redis-5.0.0/src/cluster.c:3101-3107 | in every run a winner has exactly the epoch of its win if and only if it had no greater one before, and the greater of the two in any case |
| Failover.BumpedWinner | redis-5.0.0/src/cluster.c:3101-3107 | every replica that is bumped while it waits for votes wins with an epoch greater than that of the votes |
| Failover.WinnersDiffer | redis-5.0.0/src/cluster.c:3101-3107 | where an epoch has at most one winner by ElectionSafety, two winners take different configEpochs |
| Epochs.EpochDominance | redis-5.0.0/src/cluster.c:1701-1713 | in every reachable state, restarts included, each node's currentEpoch is at least every configEpoch in its table and in every message it sent |
| Epochs.StepKeepsDominance | redis-5.0.0/src/cluster.c:968-1092 | every step of every node keeps that dominance |
| Epochs.AssignedEpochIsGreatest | redis-5.0.0/src/cluster.c:1077-1092 | in every run, the epoch that a collision or a bump gives to its node is greater than all the node knows of at that moment, the header just read included, all it ever reported in a header or an UPDATE, and all it ever voted in |
| Epochs.BumpedIsGreatest | redis-5.0.0/src/cluster.c:1012-1029 | after a bump in any run the node's epoch is not zero and is the greatest it knows of |
| Epochs.CollisionEnds | redis-5.0.0/src/cluster.c:1077-1092 | in every state of every run, two masters that know each other and have equal epochs have different ones after each has heard the other, in either order: the one with the smaller name has the greater epoch, the other keeps its own |
| Epochs.UpdateIsTakenOver | redis-5.0.0/src/cluster.c:2070-2091 | in every run an UPDATE about a known node raises its epoch to the greater of the two, makes it a master if the epoch is newer and changes no role otherwise, and lowers no epoch |
| Epochs.ForgottenIsIgnored | redis-5.0.0/src/cluster.c:1700-1713 | packets of a node that was forgotten change nothing, its votes are not counted and it gets none |
| Epochs.HandshakeMakesKnown | redis-5.0.0/src/cluster.c:1790-1821 | after a handshake the node is known under its own name and its packets are read |
| Epochs.ConfigEpochIsSet | redis-5.0.0/src/cluster.c:4703-4733 | SET-CONFIG-EPOCH gives a node that knows no other and has no epoch the one asked for, and changes nothing otherwise |
| Epochs.RestartForgetsHeard | redis-5.0.0/src/cluster.c:1706-1713 | a restart forgets a currentEpoch only heard in a header, and nothing voted in or put into the table |
| Epochs.HandshakeUpdate | redis-5.0.0/src/cluster.c:2070-2091 | taken alone, an UPDATE from a sender in handshake keeps dominance if and only if it is not applied or reports at most currentEpoch |
| Epochs.NoSenderInHandshake | redis-5.0.0/src/cluster.c:1326-1336 | no packet of any run comes from a node its receiver has in handshake, so that such an UPDATE does not happen and every UPDATE raises currentEpoch to what it reports |
| ClusterServer.Server.GetMaxEpoch | redis-5.0.0/src/cluster.c:968-981 | the result is the greatest of currentEpoch and all configEpochs |
| ClusterServer.Server.BumpConfigEpochWithoutConsensus | redis-5.0.0/src/cluster.c:1012-1029 | the node's state becomes that of the BumpEpoch transition; its epoch is not zero then and the greatest it knows of, alone so if it was bumped |
| ClusterServer.Server.HandleConfigEpochCollision | redis-5.0.0/src/cluster.c:1077-1092 | a new own epoch is taken exactly by the master with the smaller name of two masters with equal epochs |
| ClusterServer.Server.ReadHeader | redis-5.0.0/src/cluster.c:1701-1713 | the header of a message changes the state as the ProcessHeader transition says |
| ClusterServer.Server.ProcessPing | redis-5.0.0/src/cluster.c:1988-1996 | a PING changes the state as the ReceivePing transition says, collisions included |
| ClusterServer.Server.ProcessUpdate | redis-5.0.0/src/cluster.c:2070-2084 | an UPDATE changes roles and epochs as the ReceiveUpdate transition says |
| ClusterServer.Server.ProcessAck | redis-5.0.0/src/cluster.c:2045-2057 | a vote is counted exactly when the sender is a master with slots and the epoch is that of the attempt or newer |
| ClusterServer.Server.ProcessAuthRequest | redis-5.0.0/src/cluster.c:2706-2807 | a vote is granted exactly as the GrantsVote function says, the slot loop with its early exit included; when that is so is the subject of OrdinaryFailover and RefusedVote |
| ClusterServer.Server.SetupAttempt | redis-5.0.0/src/cluster.c:3018-3034 | scheduling resets the count and the sent flag and sets time and rank |
| ClusterServer.Server.Failover | redis-5.0.0/src/cluster.c:2908-2936 | winning takes the election's epoch and all slots of the old master |
| ClusterServer.Server.HandleSlaveFailover | redis-5.0.0/src/cluster.c:2946-3114 | an attempt is scheduled, started or won exactly when its conditions hold, with delays, time-outs and ranks, and the state becomes that of the transition; without a manual failover a replica with old data, with failover disabled or of a master that is up does nothing; however often the rank gets worse, the delay is one second for each rank |
| ClusterServer.Server.RecomputeSize | redis-5.0.0/src/cluster.c:3793-3813 | the size is the number of masters that serve a slot |
| SlotBitmap.SetClear | redis-5.0.0/src/cluster.c:3625-3643 | setting or clearing a bit changes that bit and no other |
| SlotBitmap.EqualBits | redis-5.0.0/src/cluster.c:1931-1937 | two bitmaps with equal bits are equal bytes |
| SlotTable.BindKeepsConsistency | redis-5.0.0/src/cluster.c:3663-3685 | binding a free slot keeps table, bitmaps and counts in agreement |
| SlotTable.FreeKeepsConsistency | redis-5.0.0/src/cluster.c:3688-3721 | the owner of a slot has its bit set, and freeing it keeps the agreement |
| SlotTable.BitmapsPartition | redis-5.0.0/src/cluster.c:3625-3735 | no two nodes claim the same slot, and numslots is the number of claimed slots |
| SlotTable.Cluster.AddSlot | redis-5.0.0/src/cluster.c:3704-3709 | succeeds exactly on a free slot, binds it, and keeps the agreement |
| SlotTable.Cluster.DelSlot | redis-5.0.0/src/cluster.c:3714-3721 | frees exactly an owned slot; the assertion on the bit never fails |
| SlotTable.Cluster.GetSlotBit | redis-5.0.0/src/cluster.c:3696-3698 | the bit of a node is set exactly when the table names it |
| SlotTable.Cluster.DelNodeSlots | redis-5.0.0/src/cluster.c:3725-3735 | all slots of the node are freed, and the result is their number |
| SlotTable.Cluster.DelNode | redis-5.0.0/src/cluster.c:905-932 | forgetting a node frees its slots and its migrations and removes it, in a consistent table |
| SlotTable.Cluster.AddNode | redis-5.0.0/src/cluster.c:886-892 | a new node is known without slots, in a consistent table, and a known one is left alone |
| SlotTable.Cluster.SetSlotNode | redis-5.0.0/src/cluster.c:4412-4413 | rebinding a slot moves it and nothing else |
| SlotTable.Cluster.AssignSlot | redis-5.0.0/src/cluster.c:4366-4413 | SETSLOT NODE: refused exactly for an unknown node or when keys would be given away; otherwise the slot moves, a migration without keys ends, and at the end of an import this node's epoch is not zero and the greatest it knows of |
| SlotTable.Cluster.ReplaceMaster | redis-5.0.0/src/cluster.c:2908-2936 | the promoted replica owns exactly what its master owned besides its own |
| SlotTable.MovedAll | redis-5.0.0/src/cluster.c:2908-2936 | moving all slots of a node leaves it none, the other gets exactly those, and nobody else changes |
| SlotTable.Cluster.UpdateSlotsConfigWith | redis-5.0.0/src/cluster.c:1530-1624 | each claimed slot that is not importing goes to the sender if it is free or owned with a smaller epoch; demotion and dirty slots are exactly as lost |
| SlotTable.Cluster.ProcessClaim | redis-5.0.0/src/cluster.c:1931-1943 | the memcmp shortcut is taken exactly when the sender owns what it claims, and the table, the demotion and the dirty slots are the same as without it; no epoch is lowered, and the sender's is the greater of the old one and the one claimed |
| SlotTable.SameClaim | redis-5.0.0/src/cluster.c:1931-1937 | the bytes of two bitmaps are equal exactly when they claim the same slots |
| SlotTable.Cluster.LearnEpoch | redis-5.0.0/src/cluster.c:1709-1713 | the sender's epoch is the greater of the old one and the one announced, no other epoch changes |
| SlotTable.Cluster.CheckArgs | redis-5.0.0/src/cluster.c:4279-4306 | accepts exactly valid, distinct slots that are all free, or all owned for DELSLOTS |
| SlotTable.Cluster.AddDelSlots | redis-5.0.0/src/cluster.c:4274-4323 | all the slots or none; the assertion on each result never fails |
| SlotTable.AddThenDelete | redis-5.0.0/src/cluster.c:4274-4323 | ADDSLOTS can be undone: DELSLOTS of the same slots is accepted and gives the old table |
| SlotTable.NothingToRebind | redis-5.0.0/src/cluster.c:1931-1937 | a sender that owns exactly what it claims takes nothing |
| Convergence.ConvergesToBest | redis-5.0.0/src/cluster.c:1530-1590 | after any sequence of claims, in any order and with repetition, each slot not importing is bound to the claimant of the highest epoch heard |
| Convergence.SameNewsSameOwners | redis-5.0.0/src/cluster.c:1530-1590 | two nodes that processed the same claims agree on every slot neither is importing |
| Convergence.EpochIsGreatestHeard | redis-5.0.0/src/cluster.c:1701-1713 | after any sequence of claims that carry different epochs, the epoch of each node is the greatest heard from it |
| Convergence.OwnersOnlyGetNewer | redis-5.0.0/src/cluster.c:1555-1588 | over any such sequence a bound slot stays bound, a new owner has a greater epoch than the old one had, and an imported slot keeps its owner |
| Convergence.OldClaimTakesNothing | redis-5.0.0/src/cluster.c:1568-1569 | a claim no newer than one heard before from the owner of a slot does not take it, whatever came in between |
| Convergence.HighestClaimWins | redis-5.0.0/src/cluster.c:1555-1588 | a slot belongs to the sender of the highest claim for it, whatever came before or comes after, older claims of the same sender included |
| Convergence.EmptyReflectsNothing | redis-5.0.0/src/cluster.c:429-435 | an empty table is a start of every such run |
| Convergence.UpdateMatchesPing | redis-5.0.0/src/cluster.c:2070-2091 | an UPDATE does what a PING would do if and only if the epoch is new or there is nothing to rebind |
| Convergence.UpdateCanBeLost | redis-5.0.0/src/cluster.c:2078-2078 | an instance in which the slot of an UPDATE is not bound by the UPDATE, and would be by a PING |
| SlotRanges.GenSlotTokens | redis-5.0.0/src/cluster.c:4016-4034 | the printed ranges are ascending, disjoint and maximal and cover exactly the bitmap |
| SlotRanges.PrintLoop | redis-5.0.0/src/cluster.c:4016-4034 | the same for the loop that changes its own index at the end |
| SlotRanges.LoadTokens | redis-5.0.0/src/cluster.c:235-272 | loading fails exactly on a range out of bounds and otherwise adds exactly the slots covered that no other node has |
| SlotRanges.SaveAndLoad | redis-5.0.0/src/cluster.c:235-272 | printing any bitmap and loading the ranges gives the same slots, but for those another node took before |
| SlotRanges.CanonicalIsUnique | redis-5.0.0/src/cluster.c:4016-4034 | a set of slots has only one such text |
| AofProtocol.DigitsOfDec | redis-5.0.0/src/aof.c:493-516 | a printed number reads back as itself |
| AofProtocol.HeaderLine | redis-5.0.0/src/aof.c:740-750 | a header line read back is the line that was printed, whatever follows |
| AofLoad.WholeCommand | redis-5.0.0/src/aof.c:740-776 | a command with arbitrary binary arguments parses back from its encoding, whatever follows |
| AofLoad.CutCommand | redis-5.0.0/src/aof.c:740-776 | every proper prefix of an encoding is a short read, never a format error |
| AofLoad.ReadArgs | redis-5.0.0/src/aof.c:754-776 | the reading loop computes the argument parser |
| AofLoad.ReadCommand | redis-5.0.0/src/aof.c:740-776 | the reading code computes the command parser, errors and short reads included |
| AofLoad.RunCommand | redis-5.0.0/src/aof.c:780-811 | one command is executed, queued or ends a block as the replay function says |
| AofLoad.LoadAppendOnlyFile | redis-5.0.0/src/aof.c:673-873 | the whole loader, with its offsets and exits, computes LoadFile, whose outcomes are the subject of AofRecovery, AofTransactions and AofErrors |
| AofRecovery.LoadFilePrefix | redis-5.0.0/src/aof.c:833-864 | loading any prefix of any log runs exactly the whole commands in it and then stops at the end or unexpectedly |
| AofRecovery.TruncatedLogRecovery | redis-5.0.0/src/aof.c:833-864 | for plain commands the longest prefix of whole commands is executed and its length kept, and no format error is reported |
| AofRecovery.LogRoundTrip | redis-5.0.0/src/aof.c:493-516 | loading the encodings of any sequence of commands executes that sequence |
| AofRecovery.RecoveredLogLoads | redis-5.0.0/src/aof.c:840-860 | what is kept of a cut log is the encoding of what was executed, and loads again |
| AofErrors.JunkIsFormatError | redis-5.0.0/src/aof.c:746-746 | after any plain commands, bytes that do not begin a command are a format error: the commands are executed and the file is left as it is, with aof-load-truncated or without |
| AofErrors.NoArgsIsFormatError | redis-5.0.0/src/aof.c:748-749 | so is a command without arguments |
| AofErrors.JunkArgIsFormatError | redis-5.0.0/src/aof.c:755-761 | so is anything but an argument where one is announced |
| AofErrors.NegativeLengthIsFatal | redis-5.0.0/src/aof.c:762-763 | an argument of negative length ends the process, and the file is left as it is |
| AofErrors.NulCountEnds | redis-5.0.0/src/aof.c:747-747 | so does a count that begins with a zero byte |
| AofErrors.UnknownCommandExits | redis-5.0.0/src/aof.c:779-785 | so does a command that does not exist, whatever follows it |
| AofErrors.OnlyTruncationShortens | redis-5.0.0/src/aof.c:833-873 | any file whatsoever is shortened only with aof-load-truncated on, never grows, and is left as it is unless the load ends in a truncation |
| AofTransactions.TransactionRecovery | redis-5.0.0/src/aof.c:780-822 | of a cut log with MULTI blocks exactly the whole commands and blocks take effect; the file is cut to them if and only if the cut is not inside a command of a block |
| AofTransactions.AppendsSurviveRecovery | redis-5.0.0/src/aof.c:787-860 | for any appended commands and blocks: what the next load executes after a recovery, exactly; it is what the appended entries do if and only if nothing was appended or the log was not cut inside a command of a block |
| AofTransactions.AppendsAfterCut | redis-5.0.0/src/aof.c:787-860 | for every cut inside a command after the MULTI of any block of any log, and any appended entries: without a block among them nothing of them is executed and the next load cuts them off the file; with one, the half block, the single commands before it and its own MULTI and commands run together, and the rest as usual |
| AofTransactions.AppendIsLost | redis-5.0.0/src/aof.c:833-860 | an instance: MULTI, INCR, EXEC cut inside the INCR, and a later INCR that is lost |
| AofTransactions.HalfBlockRuns | redis-5.0.0/src/aof.c:787-860 | an instance: MULTI, INCR, EXEC cut inside the EXEC, recovered without effect, and the same block appended: the next load executes INCR, MULTI, INCR |
| LogReplay.Log.RunInside | redis-5.0.0/src/aof.c:789-797 | entries read inside an open block: queued without a block among them; otherwise the first EXEC runs all that is queued, and the rest is as usual |
| LogReplay.Log.RunToPlace | redis-5.0.0/src/aof.c:785-811 | the state of the loader after any number of commands of a log with blocks |
| AofWriter.CatAppendOnlyGenericCommand | redis-5.0.0/src/aof.c:493-516 | the printing loop appends the encoding of the command |
| AofWriter.SelectsAreRight | redis-5.0.0/src/aof.c:555-568 | with the inserted SELECTs every command is executed in the database it was issued against |
| AofWriter.LogReplaysInPlace | redis-5.0.0/src/aof.c:555-619 | logging any commands and loading the bytes executes each in its database |
| AofWriter.Writer.Feed | redis-5.0.0/src/aof.c:555-619 | the bytes appended are the encodings of the SELECT, if needed, and the command |
| AofWriter.Writer.Write | redis-5.0.0/src/aof.c:291-310 | exactly as much of the buffer is written as the system calls take before one fails, and its length or -1 is returned |
| AofWriter.InterruptedIsRetried | redis-5.0.0/src/aof.c:297-300 | an interrupted call takes nothing from what the others write |
| AofWriter.WritesAddUp | redis-5.0.0/src/aof.c:294-310 | short writes add up until one fails, and nothing is written after that |
| AofWriter.Writer.Flush | redis-5.0.0/src/aof.c:331-491 | file followed by buffer is everything fed; if the flush is not postponed and the calls take the buffer it is all on disk, otherwise a short write is undone or accounted for and the process exits or reports the error; the first postponement sets the time, the next ones keep it, a write clears it, and writes during an fsync are counted |
| AofWriter.Writer.FlushTwice | redis-5.0.0/src/aof.c:341-360 | a postponed flush is carried out two seconds later at the latest, even if the fsync still goes on |
| RewriteBuffer.Block.Push | redis-5.0.0/src/aof.c:133-140 | bytes are copied to the end of the block, used plus free stays the block size |
| RewriteBuffer.Block.Drop | redis-5.0.0/src/aof.c:116-118 | the bytes written leave the front of the block |
| RewriteBuffer.Buffer.Append | redis-5.0.0/src/aof.c:125-169 | the buffer's contents grow by exactly the bytes, across blocks, and the sending handler is installed |
| RewriteBuffer.Buffer.ChildWriteDiffData | redis-5.0.0/src/aof.c:95-122 | what is sent followed by what is left is what was there, for every result of write; nothing is sent after the stop; something is sent if the first write takes anything, and all of it if every write does; the handler is removed only when stopped or empty |
| RewriteBuffer.Buffer.WriteTo | redis-5.0.0/src/aof.c:174-194 | all of the buffer goes to the file, exactly if every block is written whole, or the call fails after a prefix |
| RewriteBuffer.Buffer.Size | redis-5.0.0/src/aof.c:79-90 | the size is the length of the contents |
| AofRewrite.StepConserves | redis-5.0.0/src/aof.c:1250-1260 | no step of the child, the pipes or the handshake loses, repeats or reorders a byte fed since the fork, and nobody sends after the acknowledgement |
| AofRewrite.RewriteIsComplete | redis-5.0.0/src/aof.c:1399-1418 | when the child exits with success, its file and the parent's buffer are the snapshot followed by every byte fed since the fork, exactly once |
| RewriteOutcome.ReapInstalls | redis-5.0.0/src/aof.c:1633-1752 | a successful child is installed: the file is the snapshot and all commands logged since, or the snapshot alone with the AOF off; the buffer is empty, a waiting AOF is on, and there is no child |
| RewriteOutcome.ReapFails | redis-5.0.0/src/aof.c:1633-1780 | after a failed child, append or rename the child is gone and nothing else has changed |
| RewriteOutcome.RewriteResult | redis-5.0.0/src/aof.c:1541-1752 | in every run, however the steps of server, child and pipes interleave between the start of a rewrite and its successful end, the file is the snapshot followed by exactly the commands executed in between |
| RewriteOutcome.RewriteCanSucceed | redis-5.0.0/src/aof.c:1349-1752 | from every state of every run in which a rewrite can be started, by BGREWRITEAOF or by switching the AOF on, there is a run through fork, pipe, handshake and reap in which it succeeds, with any commands executed meanwhile; those executed before the child asks reach its file through the pipe |
| RewriteOutcome.WaitingLogsNothing | redis-5.0.0/src/aof.c:603-619 | while the AOF waits for its first rewrite nothing is added to the old file |
| RewriteOutcome.StoppedLogIsDataset | redis-5.0.0/src/aof.c:226-238 | an AOF that is flushed and switched off leaves a file that loads to the dataset |
| AofRewrite.FeedFollows | redis-5.0.0/src/aof.c:555-619 | logging a command keeps a log that stands for the dataset, and every cut of it stands for a dataset the server had |
| AofRewrite.SnapshotFollows | redis-5.0.0/src/aof.c:1579-1585 | after the fork, with no selected database, the snapshot is a log that the diff can be appended to |
| AofRewrite.ApplyKeeps | redis-5.0.0/src/aof.c:1633-1780 | every event, the switching on and off and killed children included, keeps the invariant that file and buffer, and the rewrite in progress, stand for the dataset |
| AofRewrite.LogIsDataset | redis-5.0.0/src/aof.c:1633-1780 | in every state of every run with the AOF on, loading file and buffer gives the current dataset |
| AofRewrite.CrashSafety | redis-5.0.0/src/aof.c:833-864 | a crash at any point of any run leaves a file that loads, to exactly the dataset after the last command whose bytes are all in the file, or after the last rewrite |
| ObjectRewrite.OpenCommand | redis-5.0.0/src/aof.c:904-909 | the count in the header of a chunk is the number of arguments that follow it |
| ObjectRewrite.WriteAggregate | redis-5.0.0/src/aof.c:895-925 | the loop with its two counters prints chunks of at most 64 elements that together are all elements in order |
| ObjectRewrite.WriteBulkString | redis-5.0.0/src/rio.c:326-333 | prints the encoding of one argument |
| Dataset.AddAtSplit | redis-5.0.0/src/aof.c:895-972 | adding elements in two commands is adding them in one |
| DatasetRewrite.RewriteListObject | redis-5.0.0/src/aof.c:895-925 | prints the RPUSH commands of a list |
| DatasetRewrite.RewriteSetObject | redis-5.0.0/src/aof.c:929-972 | prints the SADD commands of a set in its iteration order |
| DatasetRewrite.RewriteHashObject | redis-5.0.0/src/aof.c:1071-1095 | prints the HMSET commands of a hash in its iteration order |
| DatasetRewrite.RewriteAppendOnlyFileRio | redis-5.0.0/src/aof.c:1262-1335 | prints the commands of all databases, with SELECT for those not empty and PEXPIREAT for keys that expire |
| DatasetRewrite.ChunksAddAll | redis-5.0.0/src/aof.c:895-972 | however an aggregate is cut into chunks, replaying its commands adds all its elements |
| DatasetRewrite.ItemRebuilds | redis-5.0.0/src/aof.c:1285-1320 | replaying the commands of one object on a missing key makes exactly that object with its expire and changes nothing else |
| DatasetRewrite.RewriteRebuilds | redis-5.0.0/src/aof.c:1262-1335 | replaying the rewrite of any dataset, in any iteration order, into an empty server gives exactly that dataset |
| DatasetRewrite.ServerIsSound | redis-5.0.0/src/aof.c:1262-1335 | this dataset meets what LogIsDataset and CrashSafety ask of one |
| BlockedIndex.FreeKeepsIndex | redis-5.0.0/src/blocked.c:543-576 | taking a client out of the lists of its keys leaves every other entry, in order, and the two-way index exact |
| BlockedIndex.PutInKeepsIndex | redis-5.0.0/src/blocked.c:508-537 | adding a key to a client and the client to its list keeps the index exact |
| BlockedIndex.FreeKeepsCount | redis-5.0.0/src/blocked.c:162-181 | unblocking keeps the counters equal to the numbers of flagged clients, in total and by type |
| BlockedIndex.PushMissesNone | redis-5.0.0/src/t_list.c:550-563 | a push to a list that is there needs no signal |
| BlockedIndex.AddMissesNone | redis-5.0.0/src/db.c:167-176 | a new key needs a signal only if somebody waits for it |
| Serving.StepConserves | redis-5.0.0/src/blocked.c:289-318 | serving one client neither loses nor makes up an element of any list or sorted set: it stays, goes to the target or is delivered |
| Serving.SettledKey | redis-5.0.0/src/blocked.c:267-459 | the same for all clients served for a key, who get one reply each, of the kind they wait for |
| Serving.FedSettles | redis-5.0.0/src/blocked.c:247-466 | the same for one more ready key; the keys no client is concerned with are as before |
| Blocked.Server.BlockForKeys | redis-5.0.0/src/blocked.c:497-539 | the client waits for the distinct keys given, with the first ID of each, and index, flags, counters and queue stay exact |
| Blocked.Server.UnblockClientWaitingData | redis-5.0.0/src/blocked.c:543-576 | the client leaves exactly the lists of its keys, and empty lists are removed |
| Blocked.Server.QueueClientForReprocessing | redis-5.0.0/src/blocked.c:151-158 | the client is in the unblocked list exactly once, as its flag says |
| Blocked.Server.UnblockClient | redis-5.0.0/src/blocked.c:162-181 | the whole state after unblocking one client, with all invariants |
| Blocked.Server.TakeUnblocked | redis-5.0.0/src/blocked.c:112-133 | taking the first unblocked client keeps flag and list in agreement |
| Blocked.Server.SignalKeyAsReady | redis-5.0.0/src/blocked.c:585-606 | a key is queued exactly when somebody waits for it and it is not queued yet, so dictionary and queue agree |
| Blocked.Server.RpoplpushHandlePush | redis-5.0.0/src/t_list.c:550-563 | the value goes to the head of the target, and no waiter of the target is forgotten |
| Blocked.Server.ServeClientBlockedOnList | redis-5.0.0/src/t_list.c:628-683 | the popped value is delivered, or moved to the target, or refused for a target of another type |
| Blocked.Server.ServeListClient | redis-5.0.0/src/blocked.c:289-318 | one element is popped and served to one client, and put back if it cannot be moved |
| Blocked.Server.ServeList | redis-5.0.0/src/blocked.c:267-325 | clients are served first come first served: of the first ones looked at exactly those waiting for a list, each with what the list then holds, until all were looked at or the list ran out; data, replies, clients and the order of all other lists are exactly those of serving them, and an emptied list is deleted |
| Blocked.Server.ServeZset | redis-5.0.0/src/blocked.c:328-372 | the same for sorted sets, until all were looked at or the sorted set is gone |
| Blocked.Server.ServeStream | redis-5.0.0/src/blocked.c:375-459 | exactly the clients waiting for an older entry are served and removed while iterating, in order, with the ID they wait beyond |
| Blocked.Server.HandleClientsBlockedOnKeys | redis-5.0.0/src/blocked.c:225-468 | it terminates though serving can make keys ready; afterwards nobody waits for data that is there, except for keys forgotten before and not signalled since; whoever stopped waiting got exactly one fitting reply; no element is lost or made up, and no other client or key changed; the clients of a key, if all wait for a list or all for a sorted set, are served in the order in which they came; the keys get their turns in the order of the queue, and each turn serves those who want what the key holds, as long as it lasts |
| Fairness.FairTurn | redis-5.0.0/src/blocked.c:237-245 | serving one more ready key keeps the order for every key with clients of one type, also when clients leave it because another key served them |
| Fairness.TurnedServesFirst | redis-5.0.0/src/blocked.c:279-296 | a turn serves the first of the clients of a key if they are of one type, and moves nobody if they are all of the other |
| Fairness.MixedKeyIsUnfair | redis-5.0.0/src/blocked.c:338-351 | an instance where a turn moves a client behind one that came later |
| Turns.EnterTurn | redis-5.0.0/src/blocked.c:247-459 | one more turn keeps the account of a call: each turn serves exactly those who want what the key holds, in order, all of them or until nothing is left |
| Turns.ServedWanted | redis-5.0.0/src/blocked.c:375-420 | nobody is woken in vain: whoever is served waited for the key, for the type it held, and for an ID below the last one if it was a stream |
| Turns.TurnGivesInOrder | redis-5.0.0/src/blocked.c:267-325 | the clients of a list that pop at the same end get its elements from there, in the order of the clients, as many as there are |
| ServingOrder.ListPopsInOrder | redis-5.0.0/src/blocked.c:289-318 | client number i gets element number i from its end of the list, and the rest of the list stays |
| ServingOrder.ZsetPopsInOrder | redis-5.0.0/src/blocked.c:328-372 | client number i of a sorted set gets the member with the i-th lowest or highest score, and an emptied sorted set is gone |
| ServingOrder.MovesInOrder | redis-5.0.0/src/t_list.c:628-683 | what BRPOPLPUSH moves to another list keeps its order: the last elements of the one are the first of the other |
| ServingOrder.TurnsRound | redis-5.0.0/src/t_list.c:628-683 | BRPOPLPUSH from a list to itself turns it round, for any number of clients |
| ServingOrder.BadTargetMovesNothing | redis-5.0.0/src/t_list.c:659-680 | with a target of another type nothing moves, and every client gets an error |
| ServingOrder.FirstIdCounts | redis-5.0.0/src/blocked.c:508-525 | a key given twice counts with the ID given first |
| ServingOrder.EntriesAreNew | redis-5.0.0/src/t_stream.c:1486-1540 | XREAD answers exactly for the streams with an entry after the ID given |
| Blocked.Server.BlockOn | redis-5.0.0/src/blocked.c:497-539 | a client that finds nothing blocks on exactly its keys, for any type, and waits for nothing that is there |
| Blocked.Server.BlockingPop | redis-5.0.0/src/t_list.c:686-740 | the first key that is there gives its first element, or its last for BRPOP, as a blocked client would get it, or an error; without one the client blocks at that end |
| Blocked.Server.BlockingZpop | redis-5.0.0/src/t_zset.c:3256-3293 | the same for sorted sets, with the member of the lowest or the highest score |
| Blocked.Server.Brpoplpush | redis-5.0.0/src/t_list.c:750-777 | the same with a target |
| Blocked.Server.Xread | redis-5.0.0/src/t_stream.c:1458-1540 | the new entries of every stream that has some are sent, or the client blocks, also on a stream that is there |
| Blocked.Server.Push | redis-5.0.0/src/t_list.c:197-224 | pushing forgets nobody, a new key with waiters is queued, and the list is that of PushedAtTail or PushedAtHead |
| ServingOrder.PushedAtTail | redis-5.0.0/src/t_list.c:205-213 | RPUSH appends the values in the order of the command |
| ServingOrder.PushedAtHead | redis-5.0.0/src/t_list.c:205-213 | LPUSH puts them in front, the last one first |
| Blocked.Server.PushAndServe | redis-5.0.0/src/t_list.c:197-224 | after a push to a new list the clients that wait for it and pop at one end get the values one by one in the order in which they came: the first values first if pushed and popped at different ends, the last first if at the same |
| Blocked.Server.BlockAndPush | redis-5.0.0/src/t_list.c:197-224 | BLPOP or BRPOP of a missing key followed by RPUSH or LPUSH: the client gets the first value if popped and pushed at different ends, the last otherwise |
| Blocked.Server.Zadd | redis-5.0.0/src/t_zset.c:1601-1618 | a new sorted set is signalled, an old one need not be |
| Blocked.Server.Xadd | redis-5.0.0/src/t_stream.c:1217-1256 | the entry is appended exactly with a greater ID, and waiters are told whenever anybody waits for a stream |
| Blocked.Server.SetKey | redis-5.0.0/src/db.c:210-219 | the waiters of the key are forgotten if and only if it is neither signalled nor queued and holds something that one of them can use |
| Blocked.Server.Timeout | redis-5.0.0/src/blocked.c:162-181 | unblocking for another reason forgets nobody |
| BlockedSteps.StoreMisses | redis-5.0.0/src/db.c:183-200 | storing without a signal forgets nobody if and only if the key is to be looked at anyway or no waiter can use the object |
| Blocked.ForgottenWaiter | redis-5.0.0/src/sort.c:565-566 | a run that ends with a client waiting for a list that is there |
| Popcount.LanesCount | redis-5.0.0/src/bitops.c:66-86 | after the three masked steps every byte of a word holds its own number of ones, without any carry between bytes |
| Popcount.TopByte | redis-5.0.0/src/bitops.c:80-86 | the multiplication modulo 2^32 and the shift give the sum of the four bytes |
| Popcount.CountBlock | redis-5.0.0/src/bitops.c:54-87 | seven words at once count the ones of 28 bytes |
| Popcount.RedisPopcount | redis-5.0.0/src/bitops.c:40-92 | for every string and alignment the result is the number of one bits |
| BitPos.BigEndianBits | redis-5.0.0/src/bitops.c:151-158 | the bits of the loaded word, from the top, are the bits of the zero padded string |
| BitPos.RedisBitpos | redis-5.0.0/src/bitops.c:101-186 | for every string and alignment the result is the first bit with the value in the zero padded string, and -1 exactly when a one is looked for and there is none |
| BitOp.ApplyBits | redis-5.0.0/src/bitops.c:738-741 | each bit of a result is the operation on the bits of the operands |
| BitOp.WordIsBytewise | redis-5.0.0/src/bitops.c:677-727 | an operation on a word in memory is the operation on its bytes |
| BitOp.FoldBits | redis-5.0.0/src/bitops.c:731-745 | each bit of BITOP over any number of sources is the combination of their bits |
| BitOp.Lengths | redis-5.0.0/src/bitops.c:627-654 | minlen is at most and maxlen at least every length, missing keys being empty |
| BitOp.FastPath | redis-5.0.0/src/bitops.c:669-728 | what the word loops wrote is the bytewise result |
| BitOp.Bitop | redis-5.0.0/src/bitops.c:627-746 | every byte of the result is the combination of the sources' bytes, zero beyond their ends, whichever path computed it |
| BitField.GetUnsignedBitfield | redis-5.0.0/src/bitops.c:229-241 | the value is the number formed by the bits |
| BitField.SetUnsignedBitfield | redis-5.0.0/src/bitops.c:209-222 | the field holds the low bits of the value, every other bit is unchanged |
| BitField.SetSignedBitfield | redis-5.0.0/src/bitops.c:224-227 | the same for the two's complement of a signed value |
| BitField.GetSignedBitfield | redis-5.0.0/src/bitops.c:243-263 | the field is read with its sign |
| BitField.RoundTrip | redis-5.0.0/src/bitops.c:209-263 | a field that was set reads as the value modulo 2^bits, and a signed value in range as itself |
| BitField.CheckUnsignedBitfieldOverflow | redis-5.0.0/src/bitops.c:288-323 | nonzero exactly when value or sum is out of range; WRAP gives the remainder, SAT the violated bound |
| BitField.CheckSignedBitfieldOverflow | redis-5.0.0/src/bitops.c:325-375 | nonzero exactly when value or sum is out of range; SAT gives the violated bound |
| BitField.SignedIsCongruent | redis-5.0.0/src/bitops.c:357-374 | the wrapped signed result is in range and congruent to the sum |
| Adlist.List.AddNodeHead | redis-5.0.0/src/adlist.c:88-106 | the list is the element followed by the old list, with all pointers in order |
| Adlist.List.AddNodeTail | redis-5.0.0/src/adlist.c:114-132 | the list is the old list followed by the element |
| Adlist.List.InsertNode | redis-5.0.0/src/adlist.c:134-161 | the element is inserted before or after the node |
| Adlist.List.DelNode | redis-5.0.0/src/adlist.c:167-180 | exactly the node is removed |
| Adlist.List.Rotate | redis-5.0.0/src/adlist.c:330-343 | the last element becomes the first |
| Adlist.List.Join | redis-5.0.0/src/adlist.c:347-362 | the lists are concatenated and the other is empty |
| Adlist.List.Index | redis-5.0.0/src/adlist.c:315-327 | the node at the index, from the end if negative, or none |
| Adlist.Iter.Next | redis-5.0.0/src/adlist.c:229-240 | the next node in either direction, with the iterator already past it |
| Adlist.SearchKey | redis-5.0.0/src/adlist.c:290-308 | the first node with the key, or none |
| Adlist.Dup | redis-5.0.0/src/adlist.c:250-279 | a separate list with the same elements, the original unchanged |
| Adlist.DeleteWhileIterating | redis-5.0.0/src/cluster.c:764-778 | deleting the current node while iterating visits every original element once, in order, and leaves the others |
| Adlist.VisitNext | redis-5.0.0/src/adlist.c:205-240 | one visit, with or without deletion, keeps what was visited plus what is to come equal to the original list |
| Filas.FirstPending | app/models/colegiado.rb:5-12 | the first fila by priority with a position below its count, or none |
| Filas.Colegiado.ProximaFilaNaoVazia | app/models/colegiado.rb:5-12 | the search returns that fila |
| Filas.Colegiado.ChamaProximo | app/models/fila.rb:14-17 | the position moves on and the desk gets the vaga there |
| Filas.Colegiado.Proximo | app/controllers/colegiados_controller.rb:90-125 | without a valid desk nothing changes; otherwise exactly one person is called to the desk, who exists, or the desk is emptied; the branch for a position equal to the count is never taken |
| Filas.CallsAreExact | app/controllers/colegiados_controller.rb:107-117 | a position of a fila is reached after exactly the number of people left before it, in all filas of higher priority and in its own, and not earlier |
| Filas.ProximaVaga | app/models/aluno.rb:29-44 | the nearest vaga still to come in the first active fila that has one |
| Filas.PosicaoTotal | app/models/aluno.rb:46-64 | -1 exactly without such a vaga; otherwise the sum over active filas, or the error on an empty one |
| Filas.ShownIsExact | app/models/aluno.rb:46-64 | the number shown is the number of calls until the student's turn if and only if it is their turn, or no active fila ahead is empty and no inactive one has people |
| Filas.AllActiveIsExact | app/models/aluno.rb:46-64 | with all filas active and none empty it is exact |
| Filas.InactiveFilaIsNotCounted | app/models/aluno.rb:52-58 | an instance where an inactive fila makes the number too small |
| Filas.EmptyFilaFails | app/models/aluno.rb:52-58 | an instance where an active fila that nobody joined makes the question fail for the student who is called next |

## Left out

- Gossip and failure detection in cluster.c: which nodes are known, masters or failing is part of the state that events change freely.
- CLUSTER RESET HARD and FAILOVER TAKEOVER: they bypass the protocol on purpose.
- Timing in cluster.c: delays are parameters, and saving nodes.conf happens together with the change it saves, except for the currentEpoch raised by a header alone, which is not saved (`cluster.c:1697-1708`).
- Election.ElectionSafety: masters that disagree about the electorate of an epoch or about its size are outside it. Each proviso is shown to be needed by a run; that a run which violates one elects two is not claimed, since most do not.
- SlotTable.Cluster.UpdateSlotsConfigWith: what a demoted node does next (following the sender, deleting keys of dirty slots) is returned and not carried out.
- ClusterServer.Server.RecomputeSize: the delay after a restart, during which clusterUpdateState returns early, and the cluster state are not modelled; in the runs the step may happen at any time.
- AofLoad.LoadAppendOnlyFile: a failing truncate or lseek after recovery, which ends the process, is not modelled.
- AofWriter.Writer.Feed: models the commands that need no translation; EXPIRE, SETEX and SET with options are rewritten before they are logged in aof.c.
- The RDB preamble, fsync and the background fsync thread: a byte written is taken as on disk.
- AofRewrite: a log of plain commands; MULTI blocks inside a rewrite are not modelled, and the parent's side of a crash is the state of its file.
- DatasetRewrite.RewriteAppendOnlyFileRio: write errors are the failing child of AofRewrite; reading the diff between keys is a step there. Sorted sets, streams and modules are not rewritten, since their text depends on printing doubles and on types not shown.
- Blocked: WAIT and module blocking have no keys and are only counted; SWAPDB and the propagation of served commands are not modelled. Clients are records in a table, so two pointers to one client are the same key of the table.
- Blocked.Server.ServeStream: consumer groups are not modelled, and a reply names the ID it starts after and not the entries.
- Blocked.Server.Xread: COUNT, groups and the special IDs are not modelled.
- Blocked.Server.Zadd: the sorted set after the insertions is given, since scores are not modelled.
- Blocked.Server.Xadd: MAXLEN and generated IDs are not modelled.
- Popcount.RedisPopcount: the table of the ones of a byte is taken as its definition.
- BitField.GetSignedBitfield: widths up to 63, because the sign extension shifts by the width and is undefined in C at 64; so are the masks of the overflow checks.
- BitField.CheckSignedBitfieldOverflow: requires that the distance of the value to the bounds fits 64 bits, because a signed subtraction that overflows is undefined in C.
- Adlist.Dup: allocation failures and a failing dup callback are not modelled; values are integers compared by equality.
- Filas: positions are dense and in order of creation, priorities are distinct, and nobody joins while calls are counted; statistics in mesa.rb are not modelled.
