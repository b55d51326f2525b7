# A verified model of the single-threaded Redis clone

The server keeps all of its logic in a few stateful components and does input and output only at the edges. This
project models those components in Dafny and proves what they promise, over every input and every run:

- the blocking-request registry and the steps that park, serve, acknowledge and expire BLPOP, XREAD BLOCK and WAIT
  (`Registry`, `RegistryInvariant`, `Handler`, `Blocking`, `Sweeps`, `StreamSweeps`, `Readers`, `Expiry`, `Runs`, `Examples`),
  with what holds of WAIT and BLPOP over whole runs in `WaitRuns`, `ListRuns` and `ListItems`;
- the incremental RESP parser and the printer (`Resp`, `RespParsers`, `RespReader`, `RespChunks`,
  `RespLateness`, `RespRoundTrip`, `Decimal`);
- command execution over the key space: WATCH/MULTI/EXEC (`Watches`), stream ids and reads (`Streams`), the write log as
  append-only file (`Replay`, `Aof`) and as replica feed (`Replicas`, `Followers`), with the commands in `Commands`, `Store`,
  `SilentWrites`, `DataLaws` and `CmdHandlers`;
- the indexed and bit-level data types (`SortedSets`, `Bitmaps`, `Geohash`).

## How it is built

Each stateful component appears twice. A class (`RequestRegistry`, `CmdHandler`, `RespParser`, `SortedSet`, `Bitmap`,
and the method `AofReplay`) has the fields and loops of the source and updates them in place; the `ensures` of every
method says that the new state is a named function of the old one. The theorems are lemmas about these functions, so
they hold of the methods. `Handler` holds the functions for the handler, `Resp` those for the parser.

A run (`Runs`) is a sequence of events: a request with its decoded command, a list sweep, a stream sweep, or the timer.
`Possible` says that every event is enabled when it happens, that is: the timestamp of a command that parks is new
(line 211 of the original's README promises it), a client has at most one WAIT pending, the replicas form a set, WAIT
and ACK do not come inside MULTI, a sweep walks each key or reader once in whatever order, and the timer fires only
while a timed request is parked. `After` gives the state a run ends in; it carries the invariant `Valid`, so everything a lemma says of a valid
state holds after every run. `parked`, `asked`, `seen` and `answers` are histories kept beside the real fields, and
messages are never taken out of the response queue, so that replies can be counted.

Clock, replication offset and connected replicas are read from an `Env` argument. Bytes stand for strings. The decoder
from values to commands (`Cmd::from_resp`) is a parameter of the replay theorems, which therefore hold for any decoder.

## Main results

1. After every run all indexes of the registry agree with its store (`Consistent`), each request ever parked is either
   still parked or has been answered once, to the client that sent it (`Runs.EveryRunAnswersOnce`).
2. A raised list sweep matches waiters with items first come first served on each key (`Sweeps.SweepMatches`), and over
   every run nobody is served on a key while an earlier one waits (`ListRuns.NobodyIsOvertaken`) and what was pushed to
   a list that nothing overwrites is what was popped and what is left (`ListItems.NoItemIsLost`). A raised stream sweep releases exactly the
   readers with something to read, and what they get, unless their COUNT is 0, was not there when they parked
   (`Readers.ReleasedReaderGetsNews`).
3. A WAIT served by an ACK is answered with exactly the required count, one that times out with less
   (`Blocking.AckServes`, `Blocking.TimedOutWaitFellShort`). Over every run its count is the number of distinct replicas
   it asked that have acknowledged its offset since it parked (`WaitRuns.WaitCountsReplicas`,
   `WaitRuns.ServedReplyCountsReplicas`).
4. EXEC aborts exactly when a tracked write to a watched key was executed since the WATCH
   (`Watches.ExecAbortsIffDisturbed`); a watched key that was neither so written nor silently changed since then is as
   it was (`Watches.ExecFindsKeysAsWatched`), and the silent changes are named exactly
   (`SilentWrites.SilentKeyIsChanged`, `Watches.SweepKeepsKey`).
5. Replaying the log rebuilds the live key space up to keys that hold an empty stream, and when the last command is
   missed is told from the lengths of the chunks (`Replay.LogRebuildsKeySpace`); the commands that keep log and key
   space in step are named exactly (`Replay.DataOpRepeats`). What a replica is sent is the frames of the log with
   GETACKs in between, one whenever a WAIT parks; it reaches the same key space from that, in whatever pieces it comes,
   or lacks the last command: exactly when the cut is late and the last frame is no GETACK (`Followers.ReplicaFollows`).
6. However a byte stream is cut, the incremental parser delivers what a reader with the whole stream at hand would, less
   what its last bulk body completes exactly when the cut is late; the lengths of the pieces tell
   (`RespLateness.CuttingDecides`).
7. Reading a stream page by page, with appends in between, loses an entry exactly when it is appended behind the cursor
   (`Streams.PagingIsLossless`, `Streams.AppendLossless`), and k reads of n entries list all exactly when k times n is
   enough (`Streams.EnoughReadsListAll`).

## Where the code departs from what its comments promise

Each of these is modelled as the code has it, with a lemma that says when it shows.

- A frame whose bytes are all in may wait for one byte more. One feed makes the parser late exactly when the cursor has
  already run to the end of the body it waits for and the fed bytes are just those the body lacks
  (`RespLateness.FeedMakesLate`); over any pieces this is a matter of their lengths (`RespLateness.LateExactly`), and for
  three pieces of one body it is twice the first plus the second reaching the end (`RespLateness.ThreePieces`,
  `RespRoundTrip.BodyInThreePieces`). The last command of a log is then missed (`Replay.LogInThreePieces`,
  `Examples.LastSetLost`).
- Printing a value and reading the bytes gives it back exactly when it is well formed (`RespRoundTrip.ComesBack`): an
  empty array never completes and swallows everything after it (`RespRoundTrip.EmptyArrayIsNeverDelivered`); integers,
  null strings and null arrays make the parser fail (`RespRoundTrip.PrintedButNotRead`).
- BLPOP never pops at once, although the comments in `cmd_blpop` expect it to: no queue is ever kept empty, and an absent
  queue counts as not empty (`Runs.BlpopParks`).
- Every reply overwrites both sweep flags: after a push followed by another command in the same loop nobody is served
  (`Expiry.ReplyLowersFlag` gives the exact condition for lists and for streams).
- `SortedSet::add` of a member that is there with another score leaves the old pair in the index
  (`SortedSets.AddAgrees` gives the exact condition).
- `XADD *` can step back, and so can `t-*` when the sequence number wraps (`Streams.AcceptedIdGrows` gives the exact
  condition). A reader misses such an entry exactly when it lies past its start and not past its cursor
  (`Streams.AppendLossless`).
- ZADD and ZREM leave no dirty mark (`Watches.SortedSetWritesMarkNobody`, with the exact condition for a change), served
  BLPOPs neither mark nor log (`Watches.SweepKeepsKey`, `Replay.ServedPopIsNotLogged`), and SETBIT of a bit other than 0
  and 1 creates its key, fails, and is not logged (`Replay.FailedWrites`).
- SET with EX adds seconds to a clock in seconds and compares with one in milliseconds, so the value is gone at once
  (`DataLaws.ExIsPx`, `DataLaws.ExIsGoneAtOnce`).
- A second WAIT of a client breaks the wait map (`RegistryInvariant.SecondWaitBreaks`).
- XREAD BLOCK with COUNT 0 parks although entries lie past its cursor, and is released with nothing
  (`StreamSweeps.ReaderParks`, `StreamSweeps.CountZeroGetsNothing`).
- A BYTE range counts the same as the BIT range eight times as long exactly under `SameSelection`
  (`Bitmaps.ByteRangeIsBitRange`): it fails for some ranges given from the end.

## Model

| member | source | states |
|---|---|---|
| Registry.RequestRegistry.Insert | src/commands/cmd_handler.rs:108-148 | parking puts the request into the store, the index of its kind and, at the first free deadline, the deadline tree, and touches nothing else |
| Registry.RequestRegistry.AddToAcks | src/commands/cmd_handler.rs:138-143 | every asked replica owes the client one ACK more, the last in its list |
| Registry.RequestRegistry.Remove | src/commands/cmd_handler.rs:150-187 | the request is gone from the store and every index, empty queues and lists with it; an unknown timestamp changes nothing |
| Registry.RequestRegistry.RemoveFromAcks | src/commands/cmd_handler.rs:172-180 | no replica of the list owes the client an ACK any more, and none is kept with an empty list |
| Registry.RequestRegistry.Watch | src/commands/cmd_handler.rs:226-231 | the client watches the keys, unmarked, a mark already there staying |
| Registry.RequestRegistry.UnwatchAll | src/commands/cmd_handler.rs:233-237 | the client watches nothing, everybody else as before |
| Registry.RequestRegistry.SetDirty | src/commands/cmd_handler.rs:239-262 | exactly the watchers of the written key are marked |
| RegistryInvariant.InsertConsistent | src/commands/cmd_handler.rs:108-148 | parking keeps every index in agreement with the store: queues in arrival order and not empty, the reader set, the wait map, ACK debts that add up, deadlines a bijection with timed requests |
| RegistryInvariant.SecondWaitBreaks | src/commands/cmd_handler.rs:138-143 | a WAIT keeps the indexes in agreement if and only if its client has none pending |
| RegistryInvariant.RemoveConsistent | src/commands/cmd_handler.rs:150-187 | removing any timestamp keeps every index in agreement |
| RegistryInvariant.RemoveTwice | src/commands/cmd_handler.rs:150-187 | the second removal made by a fired task is a no-op |
| RegistryInvariant.RemoveUndoesInsert | src/commands/cmd_handler.rs:108-187 | removing what was just inserted restores the registry exactly |
| RegistryInvariant.RemoveAllConsistent | src/commands/cmd_handler.rs:622-634 | removing any sequence of requests keeps every index in agreement and removes just those |
| RegistryInvariant.FreeSlotIs | src/commands/cmd_handler.rs:119-129 | the slot search ends at the first free deadline not before the one asked for |
| RegistryInvariant.FreeSlotIsNear | src/commands/cmd_handler.rs:119-129 | it is later by at most the number of pending timed requests |
| CmdHandlers.CmdHandler.CmdBlpop | src/commands/cmd_handler.rs:911-999 | new state and result of BLPOP: parked, popped, or refused |
| CmdHandlers.CmdHandler.CmdXread | src/commands/cmd_handler.rs:1261-1393 | new state and result of XREAD: pages, empty, parked with resolved cursors, or refused |
| CmdHandlers.CmdHandler.Extract | src/commands/cmd_handler.rs:1184-1241 | the pages of those cursors that have something past them |
| CmdHandlers.CmdHandler.CmdWait | src/commands/cmd_handler.rs:1696-1783 | new state and result of WAIT: at once, or GETACK to every replica and parked |
| CmdHandlers.CmdHandler.CmdReplconfAck | src/commands/cmd_handler.rs:1616-1691 | counts, debts, replies and removals of an ACK |
| CmdHandlers.CmdHandler.CountAck | src/commands/cmd_handler.rs:1633-1656 | the loop over the clients a replica owes, as one function of the store before it |
| CmdHandlers.CmdHandler.CmdRpush | src/commands/cmd_handler.rs:758-773 | RPUSH appends, or leaves a value of another type |
| CmdHandlers.CmdHandler.CmdLpush | src/commands/cmd_handler.rs:835-853 | LPUSH puts the values in front, the last one first |
| CmdHandlers.CmdHandler.CmdLpop | src/commands/cmd_handler.rs:871-909 | LPOP takes up to the count from the front and returns it |
| CmdHandlers.CmdHandler.CmdIncr | src/commands/cmd_handler.rs:1395-1424 | INCR adds one below the 64-bit maximum, else refuses |
| CmdHandlers.CmdHandler.CmdXadd | src/commands/cmd_handler.rs:1011-1102 | XADD inserts under the id it accepts, or refuses and leaves the key |
| CmdHandlers.CmdHandler.CmdSetbit | src/commands/cmd_handler.rs:2294-2320 | SETBIT writes and extends, returns the old bit, or refuses |
| CmdHandlers.CmdHandler.CmdBitop | src/commands/cmd_handler.rs:2376-2430 | BITOP overwrites the destination, or deletes it when the result is empty |
| CmdHandlers.CmdHandler.CmdDiscard | src/commands/cmd_handler.rs:1490-1506 | DISCARD drops the transaction and the watches |
| CmdHandlers.CmdHandler.CmdExec | src/commands/cmd_handler.rs:1439-1488 | EXEC aborts or executes the queue in order, and ends the transaction |
| CmdHandlers.CmdHandler.ExecuteCmd | src/commands/cmd_handler.rs:332-491 | marking, dispatch, and after a reply flags, log and feed |
| CmdHandlers.CmdHandler.HandleRequest | src/commands/cmd_handler.rs:493-533 | execution outside MULTI, queueing inside |
| CmdHandlers.CmdHandler.ServeBacklogList | src/commands/cmd_handler.rs:604-644 | the list sweep, whatever order the map is walked in |
| CmdHandlers.CmdHandler.ServeBacklogStream | src/commands/cmd_handler.rs:646-698 | the stream sweep, whatever order the set is walked in |
| CmdHandlers.CmdHandler.BlpopTask | src/commands/cmd_handler.rs:924-950 | the stored task of BLPOP |
| CmdHandlers.CmdHandler.XreadTask | src/commands/cmd_handler.rs:1323-1354 | the stored task of XREAD |
| CmdHandlers.CmdHandler.CallbackDeadlineExpire | src/commands/cmd_handler.rs:580-598 | the request with the nearest deadline is answered and removed |
| Blocking.Conservation | src/commands/cmd_handler.rs:580-644 | replies sent plus requests still parked equal requests parked |
| Blocking.ParkValid | src/commands/cmd_handler.rs:108-148 | parking keeps the whole invariant |
| Blocking.ExpireValid | src/commands/cmd_handler.rs:580-598 | firing a deadline keeps the whole invariant |
| Blocking.AckValid | src/commands/cmd_handler.rs:1616-1691 | an ACK keeps the whole invariant: actual count plus replicas still owing is the number asked, and the count is below the required one |
| Blocking.AckServes | src/commands/cmd_handler.rs:1633-1688 | exactly the WAITs that reach their count are answered, each with exactly the required count; the others stay, one closer if the replica caught up |
| Blocking.AckLooksUp | src/commands/cmd_handler.rs:1634-1636 | the look-ups of the ACK path never fail |
| Blocking.TimedOutWaitFellShort | src/commands/cmd_handler.rs:1739-1757 | a WAIT that times out is answered with less than it required |
| WaitRuns.RunOwes | src/commands/cmd_handler.rs:1616-1691 | in every run a replica asked by a parked WAIT owes its ACK if and only if it has not acknowledged the offset of the WAIT since it parked |
| WaitRuns.WaitCountsReplicas | src/commands/cmd_handler.rs:1616-1691 | in every run the count of a parked WAIT is the number of distinct replicas it asked that have acknowledged at least its offset since it parked |
| WaitRuns.ServedReplyCountsReplicas | src/commands/cmd_handler.rs:1633-1688 | the reply of a WAIT served by an ACK is that number, the last replica included |
| Sweeps.SweepListsValid | src/commands/cmd_handler.rs:604-644 | a list sweep keeps the whole invariant |
| Sweeps.SweepMatches | src/commands/cmd_handler.rs:604-644 | on every key the old list is the items given to the first waiters, in order, followed by the new list, and no key keeps both a waiter and an item |
| ListRuns.NobodyIsOvertaken | src/commands/cmd_handler.rs:604-644 | in every run the BLPOPs served on a key, in the order they were served, and then those still waiting on it are in the order in which they parked |
| ListItems.NoItemIsLost | src/commands/cmd_handler.rs:604-644 | in every run in which no SET or BITOP overwrites items of the key the values pushed are those popped, by LPOP or for a BLPOP, and those left; in this very order if all pushes were RPUSH |
| ListItems.CommandBalances | src/commands/cmd_handler.rs:728-909 | a command keeps pushed equal to popped plus left if and only if it is no SET or BITOP that overwrites items |
| StreamSweeps.SweepStreamsValid | src/commands/cmd_handler.rs:646-698 | a stream sweep keeps the whole invariant |
| StreamSweeps.SweepReleases | src/commands/cmd_handler.rs:646-698 | exactly the readers with an entry past one of their cursors are released and sent their pages; the key space is untouched |
| StreamSweeps.ReleasedGetsPages | src/commands/cmd_handler.rs:1200-1210 | with a COUNT other than 0 the pages are the first COUNT entries past each cursor that has any |
| StreamSweeps.CountZeroGetsNothing | src/commands/cmd_handler.rs:1200-1217 | with COUNT 0 there are no pages |
| StreamSweeps.ReaderParks | src/commands/cmd_handler.rs:1261-1318 | XREAD parks if and only if it has BLOCK, its keys hold streams or nothing, and nothing is past any of its cursors or its COUNT is 0 |
| Readers.RunBehind | src/commands/cmd_handler.rs:1261-1393 | after every run streams are sorted and every parked reader whose COUNT is not 0 had nothing past its cursors when it parked; with COUNT 0 XREAD parks although entries lie past them |
| Readers.ReleasedReaderGetsNews | src/commands/cmd_handler.rs:646-698 | in every run a released reader whose COUNT is not 0 is sent at least one page by this very sweep, and no entry of it was in the stream when the reader parked |
| Runs.BlpopParks | src/commands/cmd_handler.rs:960-998 | BLPOP parks or is refused; it never pops at once |
| Runs.DispatchValid | src/commands/cmd_handler.rs:371-430 | every command keeps the whole invariant |
| Runs.ExecuteValid | src/commands/cmd_handler.rs:332-491 | executing keeps the whole invariant |
| Runs.BatchValid | src/commands/cmd_handler.rs:1463-1473 | so does a batch |
| Runs.EveryRunAnswersOnce | src/commands/cmd_handler.rs:580-698 | after every run each request parked is parked still or answered, never both and never twice, and the i-th reply goes to the client of the i-th answered request |
| Expiry.FireAllDrains | src/commands/cmd_handler.rs:217-219 | firing over and over drains the deadline tree in increasing order, once per timed request, and leaves no timed request parked |
| Expiry.ExpireShrinks | src/commands/cmd_handler.rs:580-598 | each firing takes exactly its deadline out of the tree |
| Expiry.ReplyLowersFlag | src/commands/cmd_handler.rs:432-436 | after a reply the list sweep serves nobody if and only if the command was no push or no list has both a waiter and an item, and the stream sweep if and only if it was no XADD or no parked reader has anything to read |
| Expiry.StreamSweepServes | src/commands/cmd_handler.rs:646-698 | a stream sweep releases somebody if and only if its flag is up and some parked reader has anything to read |
| Expiry.SweepServes | src/commands/cmd_handler.rs:604-644 | a sweep serves somebody if and only if its flag is up and some list has both a waiter and an item |
| Watches.ExecAbortsIffDisturbed | src/commands/cmd_handler.rs:1447-1462 | in every run EXEC aborts if and only if a tracked write to a key the client watches was executed since it began watching it; an abort leaves key space, log and queue alone |
| Watches.ExecFindsKeysAsWatched | src/commands/cmd_handler.rs:226-268 | in every run each watched key neither written by a tracked command nor silently changed since this client began watching it holds what it held then |
| Examples.BothHappen | src/commands/cmd_handler.rs:1439-1488 | runs in which EXEC aborts, and in which it goes ahead, are possible |
| Watches.RunGood | src/commands/cmd_handler.rs:239-268 | after every run every mark is true of the commands executed, and every unmarked key without a silent change since is as it was |
| Watches.SweepKeepsKey | src/commands/cmd_handler.rs:604-644 | a list sweep marks nobody, and changes a key if and only if it serves somebody there |
| Watches.SortedSetWritesMarkNobody | src/commands/cmd_handler.rs:239-262 | executing ZADD or ZREM marks nobody, and leaves a key as it was if and only if that is not its silent key |
| SilentWrites.SilentKeyIsChanged | src/commands/cmd_handler.rs:1930-2043 | ZADD changes its key unless it holds another type or the member with that very score; ZREM unless it holds no such member; no other key changes: if and only if |
| SilentWrites.DataOpCovered | src/commands/data_types.rs:51-113 | every command keeps each member's current pair in the index, rescored members or not |
| Store.DataOpChangesDirtyKey | src/commands/cmd_handler.rs:239-262 | a data command other than ZADD and ZREM changes no key but the one that is marked |
| DataLaws.ExIsPx | src/commands/cmd_handler.rs:552-564 | EX behaves as PX with 1000 times as much if and only if it is for 0 seconds when the clock is 0 |
| DataLaws.ExIsGoneAtOnce | src/commands/cmd_handler.rs:552-564 | a value set with EX is gone at the same moment if and only if the clock exceeds its own thousandth by more than the seconds |
| DataLaws.IncrCounts | src/commands/cmd_handler.rs:1395-1424 | n INCRs below the maximum add n to a printed number, and the last one replies the sum |
| DataLaws.RpushThenLpop | src/commands/cmd_handler.rs:758-909 | after RPUSH, LPOP of all returns the old items and then the pushed ones, in order |
| DataLaws.LpushThenLpop | src/commands/cmd_handler.rs:835-909 | LPOP of as many as an LPUSH put returns them in reverse and leaves the list as it was |
| DataLaws.LpopSplits | src/commands/cmd_handler.rs:871-909 | what LPOP returns followed by what it leaves is what there was |
| DataLaws.LpopAdds | src/commands/cmd_handler.rs:871-909 | two LPOPs in a row return and leave what one of both counts together does |
| DataLaws.WrongTypeChangesNothing | src/commands/cmd_handler.rs:728-909 | a command refused for the type or content of its key changes no key |
| Replay.DataOpRepeats | src/commands/cmd_handler.rs:432-456 | a command does the same to the replayed key space at any time, or nothing unlogged, if and only if it is repeatable: no expiry, no accepted id from the clock, no bit above 1 on a new key, no sorted-set write that changes anything |
| Replay.ExecuteRecorded | src/commands/cmd_handler.rs:438-456 | executing keeps log and key space in step |
| Replay.BatchRecorded | src/commands/cmd_handler.rs:1463-1473 | so does a batch of EXEC |
| Replay.RunLogAgrees | src/aof.rs:215-237 | after every run of repeatable commands the log replays to the live key space |
| Replay.LogRebuildsKeySpace | src/aof.rs:215-237 | read back in any chunks the log delivers all its frames, but for the last if and only if the cut is late; replaying them gives the live key space without empty streams, whatever the clock then, or one from which the last command alone leads there |
| Replay.LogInThreePieces | src/aof.rs:215-237 | a log that ends with a bulk body in three pieces loses its last command if and only if twice the first piece plus the second reach the end of the body |
| Examples.LastSetLost | src/aof.rs:215-237 | a possible run of one SET whose log replays to an empty key space if and only if the pieces of the value are of such lengths |
| Replay.OnePieceRebuilds | src/aof.rs:215-237 | read in one chunk, the log always rebuilds the key space |
| Replay.ServedPopIsNotLogged | src/commands/cmd_handler.rs:924-950 | a sweep that serves a waiter changes the key space and not the log |
| Replay.FailedWrites | src/commands/cmd_handler.rs:2294-2312 | a failing command changes the key space beyond an empty stream if and only if it is SETBIT on a new key |
| Aof.AofReplay | src/aof.rs:215-237 | the loop of reading, parsing and handling leaves the handler as replaying the delivered values in order does |
| Aof.HandleCompleted | src/aof.rs:224-236 | the inner loop hands over everything one chunk completes |
| Replicas.FeedIsLog | src/commands/cmd_handler.rs:438-456 | in every run the writes that a replica connected throughout is sent are the bytes of the log, in order; the GETACKs sent in between are left out |
| Replicas.NothingElseIsSent | src/commands/cmd_handler.rs:1730-1749 | the response queue holds nothing for a replica that only sends ACKs but writes and GETACKs |
| Followers.RunFollowed | src/commands/cmd_handler.rs:438-456 | after every run of repeatable commands the connection has carried whole frames, GETACKs among them, which without the GETACKs are the log and replay to the lasting key space |
| Followers.AskChangesNothing | src/commands/cmd_handler.rs:1593-1615 | executing a GETACK changes neither the key space nor the transaction state of the replica |
| Followers.ReplicaFollows | src/commands/cmd_handler.rs:1730-1749 | a replica that applies all it is sent, in any pieces, reaches the lasting key space of the master, or lacks the last command if and only if the cut is late and the last frame is no GETACK |
| RespParsers.RespParser.PopAllCompleted | src/resp.rs:224-254 | completed values move into the value below, or out |
| RespParsers.RespParser.NextTillType | src/resp.rs:260-275 | the cursor moves past the next type prefix |
| RespParsers.RespParser.NextTillNewLine | src/resp.rs:277-315 | the line up to the first CR LF, or none yet |
| RespParsers.RespParser.ReadBytes | src/resp.rs:317-378 | the bulk body, or a cursor that may run past the buffer |
| RespParsers.RespParser.Parse | src/resp.rs:61-222 | the loop is the function `Parse`, from every valid state |
| RespParsers.RespParser.DeliverAll | src/aof.rs:224-236 | parsing and taking values until none is completed |
| Resp.Parse | src/resp.rs:61-222 | terminates from every valid state on any bytes, keeps the state valid, and gets ahead in unread bytes or status unless it fails; a failure completes nothing |
| Resp.AdvanceProgress | src/resp.rs:82-220 | each round keeps the state valid and, if the loop goes on, has read a byte or left a bulk body for the next type |
| RespChunks.AnyCutting | src/resp.rs:61-222 | for every stream and every cutting what the stream without its last byte reads as has been delivered, and nothing that the whole stream does not read as |
| RespLateness.CuttingDecides | src/resp.rs:61-222 | the parser fails if and only if the stream is malformed; it is late if and only if the lengths of the pieces say so; it has delivered all the stream reads as, less exactly what the last body completes when late |
| RespLateness.FeedMakesLate | src/resp.rs:317-378 | one feed leaves the parser late if and only if its cursor stood at the end of the body and the fed bytes are just those missing |
| RespLateness.LateExactly | src/resp.rs:72-75 | over any pieces lateness and the cursor follow from the lengths of the pieces of the last body |
| RespLateness.ThreePieces | src/resp.rs:317-333 | a body in three pieces is late if and only if twice the first plus the second reach its end |
| RespChunks.OneFeed | src/resp.rs:61-222 | fed at once, the parser delivers what the reference reader reads and is left where that is |
| RespReader.ReadInTwoParts | src/resp.rs:61-222 | reading a stream is reading its first part and going on with the second |
| RespRoundTrip.RoundTrip | src/resp.rs:594-650 | printing any sequence of well-formed values and feeding the bytes gives them back, with stack and buffer empty |
| RespRoundTrip.PrintedRead | src/resp.rs:594-650 | so does the reference reader |
| RespRoundTrip.FramesDelivered | src/resp.rs:317-389 | frames in any pieces: only the first frames are delivered, and a frame is delivered once all its bytes and one more are in, or all its bytes if the cut is not late |
| RespRoundTrip.FramesCut | src/resp.rs:317-389 | frames that are all in are all delivered, but for the last if and only if the cut is late |
| RespRoundTrip.ComesBack | src/resp.rs:594-650 | a printed value is delivered again if and only if it is well formed |
| RespRoundTrip.DeliveredReprints | src/resp.rs:503-534 | every value delivered from any bytes is well formed and prints to a frame that reads back as it |
| RespRoundTrip.BodyInThreePieces | src/resp.rs:317-378 | a bulk string in three pieces is delivered with its last byte, unless twice the first plus the second reach the end of the body: if and only if |
| RespRoundTrip.StuckForever | src/resp.rs:508-519 | below an array of length 0 nothing is ever delivered |
| RespRoundTrip.EmptyArrayIsNeverDelivered | src/resp.rs:508-519 | an empty array swallows whatever follows |
| RespRoundTrip.PrintedButNotRead | src/resp.rs:536-553 | integers, null strings and null arrays make the parser fail |
| Decimal.ParsePrint | src/resp.rs:123 | a printed length parses back |
| Decimal.ParsePrintInt | src/commands/cmd_handler.rs:1408-1412 | a printed 64-bit integer parses back |
| Streams.AcceptedIdGrows | src/commands/cmd_handler.rs:1044-1088 | an accepted id exceeds the last one if and only if it is neither a wrapped sequence number nor a clock that is behind |
| Streams.PagingIsLossless | src/commands/cmd_handler.rs:1200-1210 | over any interleaving of appends and reads with any COUNT, what is listed and what is still past the cursor are all along all entries past the start, once and in order, if and only if no append is lost |
| Streams.AppendLossless | src/commands/cmd_handler.rs:1044-1090 | an accepted append is lost to a reader if and only if its id lies past the start and not past the cursor and the entry is not there already |
| Streams.GrowingIsLossless | src/commands/cmd_handler.rs:1044-1090 | in runs without a wrapped sequence number or a clock that is behind nothing is lost and entries are only appended |
| Streams.ReadsLeave | src/commands/cmd_handler.rs:1200-1210 | k reads with COUNT n leave n times k entries less past the cursor, down to none |
| Streams.CapacityIs | src/commands/cmd_handler.rs:1200-1210 | k reads with COUNT n list at most n times k entries |
| Streams.EnoughReadsListAll | src/commands/cmd_handler.rs:1200-1210 | after any run in which nothing was lost, k reads with COUNT n have listed every entry past the start, once and in order, if and only if n times k covers what was left |
| SortedSets.SortedSet.Add | src/commands/data_types.rs:51-67 | new map and index, and whether the member is new |
| SortedSets.SortedSet.Remove | src/commands/data_types.rs:105-113 | new map and index, and whether the member was there |
| SortedSets.AddAgrees | src/commands/data_types.rs:51-67 | the index stays the pairs of the map if and only if no stored score changes |
| SortedSets.RemoveAgrees | src/commands/data_types.rs:105-113 | removing keeps them in agreement |
| SortedSets.RemoveUndoesAdd | src/commands/data_types.rs:51-113 | removing a new member restores map and index |
| SortedSets.AddLeaves | src/commands/data_types.rs:51-67 | adding leaves map and index alone if and only if the member is there with that score |
| SortedSets.RemoveLeaves | src/commands/data_types.rs:105-113 | removing leaves them alone if and only if the member is not there |
| SortedSets.RunAgrees | src/commands/data_types.rs:51-113 | so they agree after every run that re-adds no member with another score |
| SortedSets.RankOfIndex | src/commands/data_types.rs:69-74 | the member at index i has rank i |
| SortedSets.RankCountsMembers | src/commands/data_types.rs:69-74 | rank is the number of members below in (score, name) order |
| SortedSets.SlicesConcatenate | src/commands/data_types.rs:76-99 | adjacent slices concatenate to the whole slice |
| SortedSets.WholeRangeListsMembers | src/commands/data_types.rs:76-99 | the whole range lists every member once |
| Bitmaps.Bitmap.Set | src/commands/data_types.rs:178-196 | sets one bit of a byte in place, or refuses an offset outside |
| Bitmaps.Bitmap.Extend | src/commands/data_types.rs:256-262 | zero bytes are appended until the offset is inside |
| Bitmaps.Bitmap.SetBit | src/commands/cmd_handler.rs:2302-2314 | the write path of SETBIT on the bitmap |
| Bitmaps.SetBitChangesOneBit | src/commands/cmd_handler.rs:2294-2320 | SETBIT changes one bit of the set of offsets, extending or not, and reports what it was |
| Bitmaps.SetBitMovesCount | src/commands/data_types.rs:198-221 | and moves BITCOUNT by new minus old |
| Bitmaps.CountIsCardinality | src/commands/data_types.rs:198-221 | BITCOUNT is the size of the set of offsets |
| Bitmaps.ByteRangeIsBitRange | src/commands/data_types.rs:198-221 | for all a and b, BYTE [a,b] counts what BIT [8a,8b+7] does, unless b is so far negative that both ranges clamp to 0 and the first byte has a bit set past its first; if and only if |
| Bitmaps.CombineBitwise | src/commands/data_types.rs:233-238 | BITOP acts on each bit, the shorter operand padded with zeros |
| Bitmaps.CombineIsSetOperation | src/commands/data_types.rs:224-238 | AND and OR are intersection and union of the sets of offsets |
| Bitmaps.CombineCounts | src/commands/data_types.rs:224-238 | count(AND) + count(OR) = count(x) + count(y) |
| Geohash.InterleaveBits | src/geohash.rs:49-56 | bit k of each input is at 2k and 2k + 1 of the score |
| Geohash.DeinterleaveInterleave | src/geohash.rs:49-103 | deinterleaving undoes interleaving, for all pairs of 32-bit values |
| Geohash.InterleaveDeinterleave | src/geohash.rs:49-103 | and conversely, for all 64-bit scores |
| Geohash.InterleaveMonotone | src/geohash.rs:49-56 | the score grows with each coordinate |
| Geohash.CellInRange | src/geohash.rs:24-30 | an in-range coordinate falls into a cell of 0 to 2^26 |
| Geohash.DecodeEncode | src/geohash.rs:15-47 | over the reals decoding an encoded position is off by at most half a cell in each coordinate |
| Geohash.EncodeDecode | src/geohash.rs:15-47 | encoding a decoded score gives it back if and only if both its cells are below 2^26 |

## Left out

- Sockets, epoll, timerfd, files, the manifest and the main loop: input and output; the events of a run stand for them.
- Real time: the clock is an argument, and nothing is said about how soon a deadline fires.
- RDB reading, the RDB mode of the parser and `RESP` verbatim and bulk errors: there is no writer to invert.
- UTF-8: strings are byte sequences, so a line or body that is not UTF-8, which the parser refuses, is accepted here.
- Lengths near 2^64: the sum of a bulk length and 2 is not wrapped.
- Debug builds: the sequence number of an id wraps as in a release build instead of panicking.
- Argument parsing (`cmd_builder.rs`) and the decoder: a parameter, so error messages of malformed commands are not modelled.
- Printing of replies: they are kept as structured values, those returned at once outside the queue; only the bytes of the log and of the feed are modelled.
- The start of a replica's connection (handshake and snapshot): the replica is connected, with an empty key space, from the beginning of the run.
- Subscriber mode, pub/sub, AUTH and ACL, CONFIG, INFO, KEYS, LRANGE, ZRANK and other plain getters: they would only add easier members.
- Master connections, PSYNC and the replication offset: an exact claim does not hold, because parked and failing writes are counted too; the offset is an argument.
- WAIT and ACK inside MULTI, and parked requests of clients that disconnect: the code does not handle them.
- A missing append-only file: the log is always written; while replaying it is a by-product that no result speaks of.
- Floating point: scores are reals with a total order, so NaN and rounding are not modelled, nor is the haversine distance.
- The order in which hash maps are walked is an argument of the sweeps, in which each key comes once.
- The stored tasks are data (client, key or cursors, count, timestamp) that the steps interpret, not closures.
- CmdHandlers.CmdHandler.CmdSetbit: the bitmap inside the key space is a value; its update in place is `Bitmaps.Bitmap.SetBit`.
- CmdHandlers.CmdHandler.CmdZadd: and CmdZrem; the sorted set inside the key space is a value, its update in place is `SortedSets.SortedSet`.
- Replay.LogRebuildsKeySpace: and Followers.ReplicaFollows; only for runs of repeatable commands in which no sweep serves a waiter; `Replay.DataOpRepeats` and `Replay.ServedPopIsNotLogged` say that the others put log and key space out of step.
