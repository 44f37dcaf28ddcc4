# A model of the Redis-like server

The repository is a server that speaks the Redis protocol: one loop owns the store and consumes envelopes from a
channel, another for each client reads commands and waits for replies, and a replica follows a master. This project
models its logic in Dafny and proves what the pieces promise each other.

## How it is organised

- `Types`, `Decimal`, `Parser`, `Resp`, `Rdb`, `RdbFile`, `Command`: the codecs. The loops of the program are methods
  proved equal to functions, and the round trips are proved about the functions. Frames follow the Redis
  serialization protocol (RESP2), sections "Simple strings", "Simple errors", "Integers", "Bulk strings",
  "Null bulk strings", "Arrays" and "Null arrays", plus the server's own file frame.
- `StoreModel`: the store as a transition system. A state holds what `run_store` owns and histories of what was sent,
  logged, watched, pushed and taken. `Executes` is one command, `Step` one envelope, `Run` a whole run.
- `Store`: the same store as an object whose fields are updated in place, method by method. Its `Run` method is a
  run of the transition system, so the theorems below hold of that loop.
- `StoreFrames` says what each command leaves alone. `BlockingLists`, `ListDelivery`, `StreamLogs`, `BlockedWaiters`,
  `Requests`, `Watching`, `Replication`, `Replay`, `Snapshot` and `Counters` each prove one promise over all runs.
- `Effects` says what each command replies and stores, `Writes` what counts as a write of a watched key, `Waits` what
  WAIT counts, `Owed` what a connection passes on, and `Formats` how frames, commands and files are written.
- `ReplicaServer` and `Client` are the two other processes, joined with the store.
- `Handout` (list elements), `Readers` (stream entries) and `Agreement` (master and replica) put those together into
  what clients and replicas receive.
- `SortedSets` and `Geocoding` are the index and the bit arithmetic behind the geo commands.

## What is assumed

- Every choice the program leaves open is arbitrary: the iteration order of a hash map, the clock at each reading, the
  moment a timer fires, and the answer of a command this model does not open (`Query`).
- Channels are unbounded first-in first-out queues, and each request brings its own reply channel. Client ids are not
  reused.
- A read from a connection ends on a frame boundary; the program panics otherwise. The append-only file is enabled.
- Integers wrap around as in a release build. Counters (`waiter_id`, `master_ack`) do not reach 2^64.
- A panic stops the process it happens in, so it ends a run; parsers return it as a result of its own, since no
  combinator catches it.
- BLPOP seconds are a real number. A sorted-set score is its place in the total order of floats.

## Where the code differs from what one might expect

- `Commands.LoggedRoundTripIff`: a SET with both EX and PX would not decode. No client can send one.
- `RespCodec.RoundTripIff`, `RdbCodec.RdbRoundTripIff`, `Snapshot.SnapshotRestoresIff`, `Geocoding.ScoreRoundTripIff` and
  `Geocoding.ScoreFitsIff` give the exact condition under which a round trip holds,
  and `SortedSets.RangeIsSliceIff` that under which a range is the slice it names.
- `Parser.TakeUntilIsFirst`: `take_until` panics on an input shorter than its delimiter, such as what is left of the
  packet `+\r`, instead of failing.
- The optimistic lock is by client sets, not by value. A writer's own EXEC erases its mark, so a later EXEC succeeds
  over the write (`Watching.WriteGoesUnnoticed`, `Watching.TransactionGoesUnnoticed`), and two clients that watch the
  same key make the EXEC of either fail though nobody wrote (`Watching.WatchersConflict`).
  `Watching.ExecSendsNullIff` gives the exact condition. Pops are not writes (`WatchedWrites.PopGoesUnnoticed`); every
  other change of a watched key by a single command is (`WatchedWrites.ChangeFailsExec`).
- `$` in an empty stream stands for 0-1, so XREAD misses an entry with this very id (`StreamReaders.LatestMeansNew`).
- A deadline that exceeds 64 bits wraps around, and the key is gone early (`CommandEffects.ReadableUntil`).
- A client that sends REPLCONF GETACK has it passed on to the replicas, and counted as a write.

## Model

| member | source | states |
|---|---|---|
| Decimal.ParseIntText | src/parser.rs:362-380 | Decimal text of a number in range parses back to that number; with `NatTextValue`, printing and parsing are inverse. |
| Parser.TakeUntilIsFirst | src/parser.rs:126-146 | For every input: `take_until` panics exactly if the input is shorter than the delimiter; otherwise it stops exactly at the first occurrence, and fails exactly if there is none. |
| Parser.TakeUntilLoop | src/parser.rs:126-146 | The loop computes that function. |
| Parser.Many0Loop | src/parser.rs:294-315 | The loop with its mutable rest and vector collects the matches up to the first error, and terminates for every parser whose success consumes input. |
| Parser.IntegerReads | src/parser.rs:362-380 | `integer` takes the longest signed run of digits, accepts it iff it is a number in range, consumes at least one byte, and never panics. |
| Parser.IntegerRoundTrip | src/parser.rs:362-380 | A printed number followed by a non-digit is read back, leaving what follows. |
| RespCodec.EncodeResp | src/resp.rs:231-280 | The buffer grown in a loop is the encoding, nested arrays included. |
| RespCodec.LenIsEncodedLength | src/resp.rs:26-40 | `Resp::len` is the number of bytes of the encoding, for every nested value. |
| RespCodec.ParseSingleRun | src/resp.rs:178-205 | The mutually recursive parser with its loops computes the parsing function; it terminates because every frame shortens the rest. |
| RespCodec.ParseArrayRun | src/resp.rs:153-176 | The array loop over a mutable rest computes the parsing function, null arrays and early errors included. |
| RespCodec.ParseRespRun | src/resp.rs:207-228 | The stream loop computes the parsing function and terminates. |
| RespCodec.FileRoundTrip | src/resp.rs:138-151 | A file frame is always readable as a file, and the bulk parser tried first refuses it iff what follows does not begin with CRLF. |
| RespCodec.SingleRoundTrip | src/resp.rs:178-205 | Any well-formed frame, nested or not, is read back exactly whatever follows it, as long as that is not CRLF. |
| RespCodec.StreamRoundTrip | src/resp.rs:207-280 | Any list of well-formed values, files anywhere among and inside them, parses back from the concatenated encodings with nothing left over. |
| RespCodec.RoundTripIff | src/resp.rs:207-280 | The stream round trip holds exactly for the well-formed lists. |
| RespCodec.ParsedIsWellFormed | src/resp.rs:178-205 | Whatever the bytes, a value the parser returns is well formed: no CRLF in simple strings and errors, lengths that fit. |
| RespCodec.ParsedStreamIsWellFormed | src/resp.rs:207-228 | Whatever the bytes, a parsed stream is well formed and leaves nothing over. |
| RespCodec.ParsingNormalises | src/resp.rs:109-280 | Re-encoding what was parsed from arbitrary bytes and parsing again gives the same list, though signs and leading zeros are gone. |
| RdbCodec.SizeRoundTrip | src/rdb.rs:144-160 | All three length encodings read back; a length of 2^32 or more reads back as its remainder. |
| RdbCodec.LeBytesRoundTrip | src/parser.rs:446-504 | A sized string below 2^32 bytes is read back, leaving what follows. |
| RdbCodec.LeBytesShrinks | src/parser.rs:446-504 | Reading a string, also in the three integer forms, consumes input and returns fewer than 2^32 bytes. |
| RdbCodec.EntryRoundTrip | src/rdb.rs:25-115 | An entry is read back with its expiry, in each of the three expiry forms. |
| RdbCodec.EntryShrinks | src/rdb.rs:57-115 | Every entry read consumes input and could be written again. |
| RdbCodec.MetadataRoundTrip | src/rdb.rs:130-142 | A metadata pair of text strings is read back. |
| RdbCodec.MetadataShrinks | src/rdb.rs:130-136 | Every metadata pair read consumes input and has lengths below 2^32. |
| RdbCodec.FileRoundTrip | src/rdb.rs:175-239 | `deserialize(serialize(r))` gives back both maps, for every iteration order of each. |
| RdbCodec.LoadedIsStorable | src/rdb.rs:175-196 | Whatever the bytes, a file that loads holds only encoding 0 and lengths below 2^32. |
| RdbCodec.RdbRoundTripIff | src/rdb.rs:175-239 | The file round trip holds iff every entry has encoding byte 0 and every length is below 2^32. |
| RdbFiles.RdbFile.Set | src/rdb.rs:241-244 | The map is updated at the key, and the previous entry is returned. |
| RdbFiles.RdbFile.Serialize | src/rdb.rs:198-239 | Both loops over the hash maps produce the file for some order of each map. |
| RdbFiles.RdbFile.Load | src/rdb.rs:175-196 | Loading fails exactly when the format is wrong, and otherwise the object holds what the bytes say. |
| Commands.BuildResp | src/command.rs:650-710 | The vector grown push by push is the encoding of the command. |
| Commands.DecodeXreadRun | src/command.rs:433-468 | Stepping the index over BLOCK, the time and STREAMS decodes XREAD, with the same panics. |
| Commands.DecodedXreadPairs | src/command.rs:433-468 | A decoded XREAD has an id for every key. |
| Commands.LoggedRoundTripIff | src/command.rs:329-352 | A command that can be logged or replicated decodes to itself iff it is not a SET with both EX and PX. |
| Commands.DecodedSetHasOneExpiry | src/command.rs:329-352 | No SET a client can send has both, so the round trip holds for everything that is logged. |
| Commands.SentIsWellFormed | src/command.rs:650-710 | Everything written to the log or a replica is a well-formed frame, so the stream round trip applies. |
| Commands.GetAckLength | src/command.rs:667-673 | GETACK takes 37 bytes. |
| Streams.IdTextRoundTrip | src/command.rs:25-45 | An id printed in a row is an id XREAD and XADD read back. |
| Streams.AcceptedIffChosen | src/command.rs:47-86 | For every id form, clock and ordered stream, XADD takes exactly the chosen id: the one asked for, or the least one with the time asked for, which for `*` is the clock; always above 0-0 and above every entry. |
| Streams.RefusedIff | src/main.rs:800-831 | XADD refuses exactly if the id asked for does not fit, or none with the time asked for does, or for `*` at time 0 in an empty stream; and which of the two errors it gives. |
| Streams.AutoIdAcceptedIff | src/command.rs:71-86 | For every clock: exactly when XADD with `*` succeeds, the wrap of the sequence number included. |
| Streams.AcceptedAppends | src/main.rs:800-836 | Inserting an accepted entry into the ordered map appends it, and the order stays strict. |
| Streams.ReadThenRead | src/main.rs:265-303 | Reading, growing, and reading from the last received id gives what one later read gives. |
| Streams.NoGapsNoDuplicates | src/main.rs:265-303 | Over any number of reads of a growing stream: exactly the entries above the start id, in order, once. |
| Orders.Iterate | src/main.rs:340-351 | Iterating a hash map gives every key once, in an order nothing fixes. |
| BlockingLists.PushServesInOrder | src/main.rs:340-361 | For every iteration order: a push wakes as many waiters as there are elements, the i-th with the i-th element of the pushed key and no other; the rest stay. |
| BlockingLists.WaiterStillThere | src/main.rs:351-352 | The waiter taken out for its turn is still in the table, so the `unwrap` cannot fail. |
| BlockingLists.ExecKeepsWakeups | src/main.rs:677-748 | Every command, pushes inside EXEC included, keeps: no registered waiter names a key with a non-empty list. |
| BlockingLists.StepKeepsWakeups | src/main.rs:1203-1357 | So does every envelope. |
| BlockingLists.NoWakeupIsLost | src/main.rs:1203-1357 | In every reachable state no blocked BLPOP could be served. |
| ListDelivery.PopManyTakes | src/main.rs:1005-1012 | LPOP with a count takes the first elements, in order, and leaves the rest. |
| ListDelivery.LpopRepliesWhatItTakes | src/main.rs:988-1017 | The reply of LPOP is exactly the elements recorded as taken. |
| ListDelivery.BlpopRepliesWhatItTakes | src/main.rs:322-338 | BLPOP takes the head of the first of its keys that has one and replies with it, or blocks iff none has. |
| ListDelivery.EveryElementOnce | src/main.rs:929-1066 | In every reachable state, for every key since it was last overwritten: what was handed out, then what is there, is what was pushed, as a sequence if only RPUSH was used and as a bag in any case. |
| ListHandout.TakenIsHandedOut | src/main.rs:322-361 | For every command, EXEC with all its nested commands included: the elements taken while it ran are exactly those in its reply and in the replies to the waiters it woke. |
| ListHandout.RequestHandsOut | src/main.rs:1234-1297 | The same for a whole request, by the replies that are sent: the woken waiters first, then the client. |
| StreamLogs.XaddAppendsOne | src/main.rs:784-843 | For every id form and clock: if the key holds a stream or nothing and there is an id to choose, that id is the reply and the one entry appended; otherwise the refusal is the reply and no stream changes. Other keys keep theirs. |
| StreamLogs.StreamsOnlyGrow | src/main.rs:784-843 | Over whole runs streams stay ordered, and each later one extends the earlier one until the key is overwritten. |
| StreamReaders.ReaderSeesEverything | src/main.rs:265-320 | A client that reads a key by XREADs, alone or inside EXEC, blocking or not, each from the last id it received, is sent exactly the entries above its start id in a beginning of the stream, in order and once each; nothing that was there when the last read was sent is missing. |
| StreamReaders.ReadGives | src/main.rs:845-882 | Every XREAD of a run is sent the entries above its id in some state the run goes through between request and reply, also in the middle of an EXEC; only an aborted transaction gives none. |
| StreamReaders.XreadGives | src/main.rs:845-882 | XREAD gives the rows iff an entry is past one of its ids; else nothing at once if no time is given; and it blocks, under a new waiter id, exactly if one is. |
| StreamReaders.AskDirectly | src/main.rs:1234-1264 | As a request: the one reply at once in the first two cases; in the third nothing is sent and exactly one waiter is added, with the ids resolved at that moment. |
| StreamReaders.LatestMeansNew | src/main.rs:852-868 | `$` gives nothing that is there and everything appended later, iff the stream was not empty or its first entry is not 0-1. |
| StreamReaders.RowsInOrder | src/main.rs:265-303 | The rows of a request are those of its parts, in the order of the keys. |
| StreamReaders.RowOfOne | src/main.rs:265-303 | A key without a stream has no row; one with a stream has its name and, oldest first, id and fields of every entry past the id. |
| StreamReaders.AskInBatch | src/main.rs:733-741 | Inside EXEC each XREAD is answered by the rows of a state in the middle of the step, unless the transaction is aborted. |
| StreamReaders.ReaderStep | src/main.rs:305-320 | Whatever the envelope, nested XADDs included: a blocked reader stays as it is, or is answered once with what is above its ids in a state in between. |
| StreamReaders.BlockedRead | src/main.rs:1203-1357 | Over any part of a run a blocked reader is still waiting, unanswered, or has been answered once, from a state since. |
| BlockedWaiters.WakeAnswersAll | src/main.rs:305-320 | Each interested reader is answered once with everything above its ids, and leaves. |
| BlockedWaiters.AckKeepsShort | src/main.rs:448-466 | After an acknowledgement no pending WAIT with a target has enough replicas. |
| BlockedWaiters.NobodyWaitsForWhatIsThere | src/main.rs:1203-1357 | In every reachable state no waiting XREAD has an entry above its ids in any of its streams, and every pending WAIT with a positive target is short of acknowledgements. |
| AcknowledgedWaits.PendingIsShort | src/main.rs:448-466 | In every reachable state a pending WAIT with a positive target has fewer clients than it asks for whose acknowledgement is at least the target. |
| AcknowledgedWaits.WaitGives | src/main.rs:1086-1097 | WAIT is done at once iff that many clients have acknowledged every byte so far (for no bytes: iff there are that many replicas), and replies their number; else it blocks. |
| AcknowledgedWaits.AskWait | src/main.rs:1277-1292 | As a request that blocks: registered for the bytes so far, unanswered, and every replica is sent one GETACK if there were writes since the last time, else none. |
| AcknowledgedWaits.AckAnswers | src/main.rs:448-466 | An acknowledgement is recorded, and every pending WAIT that now has enough leaves and is sent the number, once; every other stays, unanswered. |
| AcknowledgedWaits.TimeUpAnswers | src/main.rs:1313-1320 | When its time is up a pending WAIT is sent the number reached by then. |
| AcknowledgedWaits.LastAckCounts | src/main.rs:448-449 | Over runs: what counts for a client is its last acknowledgement, until it sends another or leaves. |
| AcknowledgedWaits.LeaverCountsNot | src/main.rs:1351-1354 | A client that has left does not count. |
| AcknowledgedWaits.PendingIffWroteSince | src/main.rs:1222-1228 | In every reachable state: there are writes to ask about iff one was sent to the replicas since the last WAIT that blocked. |
| StoreFrames.BlockingMeans | src/main.rs:880-881 | Only BLPOP, XREAD with a time, and WAIT block; the waiter id is new, and a timeout is known exactly for the first two, so its `unwrap` cannot fail. |
| StoreFrames.ResultKind | src/main.rs:733-741 | EXEC and replicated commands are always done, so neither registers a waiter; only an acknowledgement has no reply. |
| StoreFrames.TransactionReplies | src/main.rs:710-748 | EXEC replies null exactly if the lock failed, else one reply per command, and clears the marks of the caller in both cases. |
| StoreFrames.TimeOutFrames | src/main.rs:1301-1320 | A timer for a waiter already answered changes nothing; otherwise the waiter is answered and removed. |
| StoreFrames.ExecKeepsFrame | src/main.rs:677-1158 | Execution, transactions included, only sends replies, never lowers the waiter id, and touches neither clients, log, offset nor the record of requests. |
| Requests.StepKeepsAccounts | src/main.rs:1234-1320 | Every envelope keeps the books of requests, waiters and replies balanced. |
| Requests.OneReplyPerRequest | src/main.rs:1203-1357 | In every reachable state waiter ids are unique across the three tables, and every request that expects a reply has been answered exactly once or sits in exactly one table. |
| Requests.RequestExpectsReply | src/main.rs:1234-1297 | A request expects a reply exactly if it is not an acknowledgement. |
| Watching.MarkedMeans | src/main.rs:677-708 | Marked means: since its own last EXEC, DISCARD or UNWATCH the client watched the key, or wrote it while the entry existed. |
| Watching.WatchersAreHistory | src/main.rs:677-755 | In every reachable state the watchers of a key are exactly the clients marked by the history. |
| Watching.LockFailsIff | src/main.rs:711-721 | The lock fails iff another client is marked on a key the caller is marked on. |
| Watching.ExecAbortsIff | src/main.rs:710-748 | EXEC aborts, with the data unchanged, iff that is so; else it gives one reply per command. The caller is unmarked either way. |
| Watching.SuccessMeansWritersLeft | src/main.rs:710-748 | If the lock holds, every write of another client to a key watched since was followed by an EXEC, DISCARD or UNWATCH of that writer. |
| Watching.ExecSendsNullIff | src/main.rs:710-748 | At any moment of any run: EXEC is answered with null, the data unchanged, iff another client and the caller have each watched, or written under a watch, the same key and neither has sent EXEC, DISCARD or UNWATCH since; else with one reply per command. |
| Watching.ExecSucceedsOverLeavers | src/main.rs:710-748 | In a run, an EXEC that succeeds comes after an EXEC, DISCARD or UNWATCH of every other client that wrote a key the caller had watched. |
| Watching.WriteGoesUnnoticed | src/main.rs:710-748 | A counterexample to optimistic locking: one client watches, another sets the key and sends a failing EXEC, and the EXEC of the first succeeds over the new value. |
| Watching.TransactionGoesUnnoticed | src/main.rs:710-748 | Another: the key is set inside the EXEC of the second client, which succeeds, and so does that of the first. |
| Watching.WatchersConflict | src/main.rs:677-721 | And the other way round: two clients watch a key, nobody writes, and EXEC replies null. |
| WatchedWrites.EventsAre | src/command.rs:712-730 | SET, LPUSH, RPUSH, INCR and XADD count as writes of their key, refused or not, and no other command does; what WATCH, UNWATCH and DISCARD record. |
| WatchedWrites.OnlyWritesChange | src/main.rs:677-1158 | Apart from LPOP, BLPOP and EXEC, only these five change data, and only at their key, waiters served included. |
| WatchedWrites.ChangeMarks | src/main.rs:678-682 | Seen from the data: a client that changes a watched key by anything but a pop or an EXEC joins its watchers. |
| WatchedWrites.ChangeFailsExec | src/main.rs:710-748 | In a run: if another client so changes a key the caller watches, and neither sends EXEC, DISCARD or UNWATCH before, the EXEC of the caller is answered with null and runs nothing. |
| WatchedWrites.PopGoesUnnoticed | src/main.rs:988-1017 | A counterexample for pops: the list at a watched key is popped by another client, and EXEC succeeds. |
| Replication.PushReachesEach | src/main.rs:1238-1251 | Whatever the order of the clients, each replica is pushed a command once. |
| Replication.StepPushesOnlyToReplicas | src/main.rs:1238-1290 | Nothing is pushed to a client that is not a replica. |
| Replication.BytesMatchOffset | src/main.rs:1221-1292 | While a client is a replica, the bytes pushed to it are the growth of `master_ack` plus 37 for each GETACK broadcast. |
| Replication.LedgerSinceJoining | src/main.rs:1321-1333 | So from its joining on the offset and the broadcasts account for every byte it was ever sent. |
| Replication.ClientIffRegistered | src/main.rs:1338-1354 | In every reachable state the clients are those that registered and have not left. |
| Replication.ReplicaIffJoined | src/main.rs:1321-1333 | And the replicas are those that also asked to be one since. |
| ReplicaAgreement.PushesAreWrites | src/main.rs:1238-1251 | GETACKs apart, a client is pushed exactly the SETs of all requests while it was a replica, in order. |
| ReplicaServer.RunReplica | src/main.rs:1499-1606 | The replica loop, handshake included, processes and counts every frame after the first two, whatever packets they came in. |
| ReplicaServer.FramesArrive | src/main.rs:1467-1484 | Packets that end on frame boundaries give back the frames that were sent, the RDB file included. |
| ReplicaServer.ReplicaFollows | src/main.rs:1548-1606 | A replica counts exactly the bytes pushed to it, answers every GETACK with the bytes pushed before it, and applies the other commands in order. |
| ReplicaServer.ReplicaOverTheWire | src/main.rs:1499-1606 | The same from the bytes on the connection. |
| ReplicaServer.WaitReceivesOffset | src/main.rs:1277-1292 | Both processes together: the GETACK a WAIT broadcasts is answered with the bytes pushed before it, which is what the ledger says. |
| ReplicaServer.AckReplyDecodes | src/main.rs:1560-1566 | The master decodes that answer as the acknowledgement of that offset. |
| Replay.FileHoldsTheLog | src/main.rs:1230-1232 | The append-only file is the encodings of the encodable commands of all requests, in order. |
| Replay.ReadInitialCommands | src/aof.rs:119-136 | The loop at startup decodes every frame, or panics. |
| Replay.LogReadsBack | src/aof.rs:109-136 | The file of any run reads back as what it held before the run, then exactly the logged commands, in order. |
| Replay.DecodedIsSendable | src/command.rs:316-352 | Every command decoded from a frame shorter than 2^64 bytes survives being logged and sent, unless encoding it panics on a key that is not UTF-8. |
| Replay.ReplayedValue | src/main.rs:1209-1212 | Replaying commands from any state leaves a key at the value of its last SET. |
| Replay.ReplayRestoresValue | src/main.rs:1209-1232 | Restarting from the bytes of the file, whatever it held before the run, gives every key whose latest write was a top-level SET of the run the value it had. |
| ReplicaAgreement.ReplicaAgrees | src/main.rs:1548-1606 | Both processes, from the bytes on the connection: for every key whose latest write on the master was a top-level SET since the replica joined, the store of the replica ends with the value of the master. |
| ReplicaAgreement.LinkDecides | src/main.rs:1335-1337 | In any run of a store whose other envelopes leave a key alone, the last SET its replication link brought decides the value. |
| ReplicaAgreement.PushedDecides | src/main.rs:1234-1252 | What was pushed since a replica joined ends, for a key, with the SET that still decides its value on the master. |
| Snapshot.SnapshotRestoresIff | src/main.rs:148-230 | Saving and loading, in every order, gives back exactly the string entries with value and absolute deadline, iff keys and values are shorter than 2^32 bytes. |
| Snapshot.ReplicaReceivesSnapshot | src/main.rs:1321-1333 | A joining replica is sent a file that holds exactly the strings of that moment. |
| Snapshot.LoadedEntries | src/main.rs:148-198 | A loaded store holds every entry of the file, deadlines in seconds turned into milliseconds. |
| Counters.IncrOfNumber | src/main.rs:757-782 | INCR of a decimal number stores the next one, wrapping around at 64 bits. |
| Counters.CountsUp | src/main.rs:757-782 | INCR repeated from a missing key replies 1, 2, 3 and so on, and leaves the last of them. |
| CommandEffects.SetStores | src/main.rs:363-393 | SET changes its key alone; the deadline is the clock plus 1000 EX, or plus PX, or none. |
| CommandEffects.ReadableUntil | src/main.rs:421-434 | SET, then GET at any later clock: the value comes back up to the last millisecond of the period and not after, iff the deadline does not wrap around (or wraps to the end of time); without a period for ever. |
| CommandEffects.NumberRead | src/parser.rs:362-380 | INCR takes a sign, digits and anything after them for a number, iff it fits 64 bits. |
| CommandEffects.IncrStores | src/main.rs:757-782 | INCR steps a number and keeps its deadline, refuses other text and changes nothing, and puts 1 in place of anything else. |
| CommandEffects.PushStores | src/main.rs:929-986 | RPUSH and LPUSH reply the length before anyone is woken; the waiters of the key, in some order, are sent the first elements one by one and leave; the key keeps the rest and its deadline. |
| CommandEffects.LpopTakes | src/main.rs:988-1017 | LPOP replies and removes the first element, or up to the count of them in order; nothing from no list. |
| CommandEffects.BlpopTakes | src/main.rs:1058-1066 | BLPOP replies and removes the head of the first of its keys that has one, and blocks iff none has. |
| CommandEffects.AskBlpop | src/main.rs:1265-1276 | As a request: unanswered and waiting for exactly its keys, or answered at once. |
| CommandEffects.XaddStores | src/main.rs:784-843 | XADD changes its key alone, to the stream with the new entry and the old deadline; refused, at most to an empty stream. |
| CommandEffects.ResultIsSent | src/main.rs:1234-1237 | Whatever the command, a result that is done is the one reply on the channel of the request. |
| CommandEffects.WaitsFor | src/command.rs:733-755 | A blocking command waits for its time in whole milliseconds, rounded down; 0 is the largest time there is. |
| Formats.LineFrames | src/resp.rs:231-280 | Simple strings, errors and integers are written as the protocol says, by their first character and a line end. |
| Formats.SizedFrames | src/resp.rs:231-280 | So are bulk strings and arrays, with their length in decimal; a file lacks the last line end. |
| Formats.IntegersInAnyForm | src/resp.rs:109-205 | An integer frame is read whatever its form: either sign or none, leading zeros. |
| Formats.LengthsInAnyForm | src/resp.rs:109-205 | So is a bulk string whose length has a plus sign or leading zeros. |
| Formats.ArraysInAnyForm | src/resp.rs:153-176 | And an array, whose elements follow. |
| Formats.DecimalText | src/resp.rs:231-280 | Decimal text has only digits, no leading zeros, and the value of the number. |
| Formats.SetAsWords | src/command.rs:650-666 | A SET is written with its words in their places. |
| Formats.OnlyTheseAreWritten | src/command.rs:650-710 | Only SET, REPLCONF other than ACK, PSYNC and PING can be written to the log or another server. |
| Formats.XreadDecodes | src/command.rs:433-468 | XREAD as a client writes it decodes to its keys, time and ids, each in its place, for any number of keys. |
| Formats.LittleEndian | src/rdb.rs:25-48 | Byte i of a fixed-width number is the number divided by 256^i. |
| Formats.SizesAsBytes | src/rdb.rs:144-160 | The three length forms, byte by byte, highest first. |
| Formats.IntegersAsBytes | src/parser.rs:446-504 | Embedded integers of one, two and four bytes are given back highest byte first. |
| Formats.EntriesAsBytes | src/rdb.rs:25-48 | An entry is its expiry marker and deadline, the type, the key and the value. |
| Formats.FileAsBytes | src/rdb.rs:198-239 | A file is REDIS0011, the metadata, one database with both sizes unless it is empty, and the end. |
| StoreServer.Store.constructor | src/main.rs:148-198 | A store built from a snapshot file holds its strings and nothing else. |
| StoreServer.Store.ToRdbFile | src/main.rs:200-230 | The loop over the map gives exactly the string entries. |
| StoreServer.Store.MarkModified | src/main.rs:678-682 | The client joins the watchers of every watched key it modifies. |
| StoreServer.Store.Forget | src/main.rs:703-706 | The client leaves every set, and empty sets go. |
| StoreServer.Store.LockIsBroken | src/main.rs:712-721 | The loop over the sets decides the lock, whatever the order. |
| StoreServer.Store.FetchBlpop | src/main.rs:322-338 | The first key with an element gives up its head; otherwise nothing changes. |
| StoreServer.Store.NotifyBlpopWaiters | src/main.rs:340-361 | Collecting and serving the waiters one by one is serving them in some order; the removal cannot fail. |
| StoreServer.Store.Push | src/main.rs:929-986 | RPUSH and LPUSH extend or replace the list, then notify; the reply is the length before anyone is woken. |
| StoreServer.Store.Lpop | src/main.rs:988-1017 | LPOP takes one element or up to the count, or nothing from a missing or empty list. |
| StoreServer.Store.Set | src/main.rs:363-393 | SET replaces the entry; EX counts seconds and wins over PX. |
| StoreServer.Store.Incr | src/main.rs:757-782 | INCR updates the number in place and keeps the deadline, refuses what does not start with a number, and replaces what is not a string. |
| StoreServer.Store.FetchXread | src/main.rs:265-303 | One row per key that holds a stream; empty iff nothing is above any id. |
| StoreServer.Store.NotifyXreadWaiters | src/main.rs:305-320 | Interested readers are taken out and answered one by one, in some order. |
| StoreServer.Store.JudgeId | src/main.rs:800-831 | The checks on an id, in their order. |
| StoreServer.Store.Xadd | src/main.rs:784-843 | The stream is created first, then the id is checked, the entry inserted and the readers notified. |
| StoreServer.Store.Xread | src/main.rs:845-882 | Ids are resolved, and the command answers or blocks under a new waiter id. |
| StoreServer.Store.CountAckedNow | src/main.rs:234-248 | The counting loops give the number of replicas, or of acknowledgements at or past the target. |
| StoreServer.Store.RecordAckOf | src/main.rs:448-466 | The offset is recorded, then every WAIT it satisfies is completed, in some order. |
| StoreServer.Store.TryExecute | src/main.rs:677-1158 | From any state, the method, recursive over EXEC, makes a transition of the model; so every well-paired command has one. |
| StoreServer.Store.PushToReplicas | src/main.rs:1239-1251 | Every replica, and nobody else, is sent the command. |
| StoreServer.Store.HandleRequest | src/main.rs:1215-1297 | Accounting, logging, execution and settling make one step. |
| StoreServer.Store.Snapshot | src/main.rs:1329-1331 | The serialized file is the snapshot of the data, in some order. |
| StoreServer.Store.HandleEnvelope | src/main.rs:1214-1355 | Every envelope makes one step of the model, unless the encoding of a SET with a key that is not UTF-8 panics. |
| StoreServer.Store.Run | src/main.rs:1203-1357 | The whole loop, replay included, is a run of the model, so every result about runs holds of it. |
| Client.HandleClient | src/main.rs:1359-1436 | The connection loop tracks the mode and the need to authenticate. |
| Client.OnlyAuthPasses | src/client.rs:36-48 | While authentication is needed the mode is normal, and so far only AUTH has reached the store. |
| Client.AuthLasts | src/main.rs:1423-1434 | Once authenticated, a connection stays so. |
| Client.QueueIsWhatWasQueued | src/client.rs:60-100 | An open transaction was opened by a MULTI in normal mode and its queue is the commands answered QUEUED since, in order. |
| Client.BatchIsQueuedSinceMulti | src/client.rs:74-90 | The batch EXEC sends is exactly those commands; nothing between MULTI and EXEC reached the store, and the batch holds no EXEC, DISCARD or WATCH. |
| OwedCommands.PassesOnWhatIsOwed | src/client.rs:34-105 | For every command stream, what is sent to the store is exactly what is owed, in order: outside a transaction every command the connection does not deal with itself, from MULTI to EXEC one batch of everything but WATCH, from MULTI to DISCARD the DISCARD; before authentication only AUTH, after SUBSCRIBE only its kind. |
| Client.AwaitsIffAnswered | src/client.rs:71-73 | The client waits for a reply exactly when the store owes it one. |
| Client.TransactionInOneStep | src/main.rs:710-748 | EXEC is one step of the store: aborted with the data unchanged, or the whole batch with no other envelope in between and one reply each. |
| SortedSets.OrderIsTotal | src/sorted_sets.rs:9-31 | Pairs are totally ordered: exactly one of less, greater, equal. |
| SortedSets.OrderIs | src/sorted_sets.rs:9-31 | Lower scores come first; among equal scores, members by the first byte that differs, a beginning before its continuation. |
| SortedSets.Index.Insert | src/sorted_sets.rs:45-74 | The search, removal and insertion are the operation on the sets, and the result is 1 iff the member is new. |
| SortedSets.Index.Rank | src/sorted_sets.rs:76-87 | The counting loop finds the position of the member. |
| SortedSets.Index.Range | src/sorted_sets.rs:89-112 | The loop collects the positions within the clamped, 32-bit bounds. |
| SortedSets.Index.GetScore | src/sorted_sets.rs:118-127 | The loop finds the score of the member. |
| SortedSets.Index.Rem | src/sorted_sets.rs:129-139 | The pair is removed, and the result is 1 iff the member was there. |
| SortedSets.OperationRefines | src/sorted_sets.rs:45-139 | Each operation acts as an update or removal on a plain map, and its result tells whether the member was there. |
| SortedSets.RunRefines | src/sorted_sets.rs:45-139 | After any operations every set is ordered, holds each member once, and agrees with the plain map. |
| SortedSets.ResultsSumToCardinality | src/sorted_sets.rs:45-139 | After any operations the size of a set is the number of members added minus the number removed, by the results. |
| SortedSets.RankCountsSmaller | src/sorted_sets.rs:76-87 | The rank of a member is the number of members of the plain map with a smaller pair; it has one iff it has a score. |
| SortedSets.RangeIsSliceIff | src/sorted_sets.rs:89-112 | For all bounds a range is the clamped slice of the ranks, negative positions counting from the end, iff there are at most 2^31 members; from there on positions wrap around. |
| SortedSets.RangeAtRank | src/sorted_sets.rs:76-112 | The range from r to r is the member whose rank is r. |
| SortedSets.WholeRange | src/sorted_sets.rs:89-112 | The whole range lists every member of the plain map, by growing pair. |
| Geocoding.SpreadByMasks | src/geocoding.rs:60-67 | Masks and shifts compute the recursive spread: the low bit plus four times the spread of the rest. |
| Geocoding.CompactByMasks | src/geocoding.rs:15-22 | Masks and shifts pack the bits in even places. |
| Geocoding.CompactUndoesSpread | src/geocoding.rs:15-67 | Compacting undoes spreading on every 32-bit value. |
| Geocoding.InterleaveSplits | src/geocoding.rs:48-74 | Both numbers are read back from an interleaving. |
| Geocoding.SplitInterleaves | src/geocoding.rs:48-74 | Every 64-bit value is the interleaving of its halves. |
| Geocoding.InterleaveFitsIff | src/geocoding.rs:69-74 | An interleaving is below 2^52 iff both numbers are below 2^26. |
| Geocoding.ScoreRoundTripIff | src/geocoding.rs:24-86 | In exact arithmetic, for every 64-bit score: encoding the decoded score gives it back iff neither grid number is 2^32 - 1, where the end of the cell wraps around. |
| Geocoding.ScoreRoundTrip | src/geocoding.rs:24-86 | In particular every score below 2^52 is given back. |
| Geocoding.ScoreFitsIff | src/geocoding.rs:76-86 | The score of an accepted point is below 2^52 iff the point is not at the northern edge or at longitude 180. |
| Geocoding.ScoreIsRowAndColumn | src/geocoding.rs:48-86 | The bits in even places are the row of the point counted from the south, those in odd places its column counted from the west, in 2^26 of each. |
| Geocoding.DecodedPointIsNear | src/geocoding.rs:48-86 | For every accepted point, the decoded point is within half a cell each way. |

## Left out

- Sockets, files, scheduling and real timers, the manifest and directories of the append-only file: channels and the file are sequences.
- Command line, CONFIG GET, INFO, KEYS, ACL and password hashing: only the outcome of AUTH is kept, as a reply.
- LLEN, LRANGE, XRANGE, TYPE and similar lookups: their answers are arbitrary here. So is that of GET inside the transition system; `CommandEffects.ReadableUntil` says what it reads.
- Publish and subscribe: only the mode of the client is modelled; the replies are arbitrary and pushed messages are absent.
- Decoding of commands that are neither logged nor replicated nor XREAD, floats included: `FromResp` answers `Unmodelled`.
- `haversine`, GEODIST, GEOSEARCH, float text and IEEE rounding.
- `many1`, `float` and the tag parsers that ignore case: nothing modelled here calls them.
- Overflow of `waiter_id` and `master_ack`, which are unbounded here.
- SortedSets.RangeAtRank: needs at most 2^31 members, since positions are cast to 32 bits; `SortedSets.RangeIsSliceIff` shows that this is the exact bound.
- SortedSets.WholeRange: needs the same.
- Replay.LogReadsBack: needs commands that survive encoding, as `Replay.DecodedIsSendable` shows of every command a client can send, and an earlier file of well-formed frames that decode.
- ReplicaServer.WaitReceivesOffset: has the same condition on the commands of the run.
- Replay.ReplayRestoresValue: has the same conditions; values only, because EX and PX are relative and replaying sets a new deadline.
- ReplicaAgreement.ReplicaAgrees: has the same condition on the commands of the run; values only; whatever else the store of the replica does must leave the key alone.
- StreamReaders.ReaderSeesEverything: each read names the key once and by an explicit id, and the key must still hold the stream at the end, since an overwritten stream starts again.
- ListHandout.TakenIsHandedOut: as a bag; which waiter gets which element is `BlockingLists.PushServesInOrder`.
- ReplicaServer.ReplicaFollows: says which commands the replica's store is sent; `ReplicaAgreement.ReplicaAgrees` says what it then holds.
- Fairness among blocked clients: hash map order decides who is served first.
- WAIT as a promise of durability: earlier GETACKs are counted by replicas, so their acknowledgements can run ahead.
- A pending WAIT with target 0 is not woken when a replica joins; the invariant covers positive targets only.
- Replicas load nothing from the snapshot they receive: the code discards it, and so does the model.
- INCR accepts a string that merely starts with a number, and a refused XADD may leave an empty stream: modelled as they are.
