# Verification model of yoyichat

yoyichat is a chat server in layers: a logic layer keeps sessions and rooms in Redis and puts messages on
a Redis list, a task layer pops that list and calls the connect layer, and the connect layer holds the
open connections in a sharded index and writes to their sockets. This project models the parts of that
path that hold state, arithmetic or parsing, and proves laws about them for every input, run or
reachable state. `dafny verify dfyconfig.toml` checks everything.

Where the code changes things in place the model is a class or a loop, proved against a function or a
value-level state machine; the laws of whole runs are lemmas about that machine.

| files | what they model |
|---|---|
| `Words`, `CityHash32`, `CityHash64`, `CityHash128`, `KnownHashes` | the hashes of tools/cityhash.go over 32- and 64-bit words, and hashes of given strings worked out |
| `ChannelStream`, `IndexModel`, `Fanout`, `RoundRobin`, `ServerModel` | the connect layer's index as values: channels, rooms, buckets, broadcast routines, the sharded server |
| `ConnectIndex`, `ConnectServer` | the same index on the heap: the intrusive doubly linked room lists, the buckets and the server |
| `StickPackage`, `TcpScanner`, `ReadLoops` | TCP frames, cutting a stream into frames, and what the read loops call |
| `Text`, `Token`, `RedisStore`, `Logic`, `Presence`, `Sessions` | printing, tokens, Redis keys, the logic layer's calls, the online counter, the session life cycle |
| `Connections` | connect and logic layer together over the lives of many connections |
| `EndToEnd` | a message's whole way, from the logic layer's queue to the channels |
| `ServiceRecords`, `Dispatch`, `Pipeline` | the task layer: service records, the client picker, the message queue and its workers |

## Where the code does not do what it seems to

Each point is a lemma that says exactly when the code behaves, or a concrete run in which it does not.

- A user put twice into a room leaves its first channel on the room's chain, where only being put again
  without a room can reclaim it. After any run the chains hold exactly the registered channels if and only if
  every channel displaced on the way was put again later (`IndexModel.ListedIsSeatedIffNoneDisplaced`,
  `IndexModel.PutTwiceStrands`).
- Nothing keeps one connection from building twice; its channel is then put twice
  (`ReadLoops.BuildingTwicePutsTwice`). A put keeps the index sound if and only if it fits: into a room, the
  channel must be on no chain; without a room, it must carry none or be on the chain of the one it carries;
  and no other user may be registered with it (`IndexModel.PutKeepsIffFits`, `ServerModel.ServerPutKeepsIffFits`).
  On the heap, after a put that does not fit no chains at all agree with the pointers (`ConnectIndex.Bucket.Put`):
  into the room it is in, the channel is linked into a cycle (`ConnectIndex.Room.Put`); into another, the first
  room's walk runs into the second's and loses what stood behind the channel (`ConnectIndex.Bucket.PutMerges`).
- A channel that left its room still carries it. Put again without a room and deleted, it is unlinked from a
  chain it is not on: the room's count no longer fits, or some channel of the chain is lost
  (`ConnectIndex.Room.DeleteChannel`), or a new room with the same id is dropped with everybody in it
  (`ConnectIndex.StaleSeatDropsRoom`).
- A channel put for two user ids carries the second. When a connection of the first id ends, the channel is looked up
  under one id and deleted under the other (connect/bucket.go:103-108): the end deletes another user, or finds no
  channel under that id and ends the server, which it does if and only if the id the registered channel carries is
  not registered (`ConnectIndex.Bucket.DeleteChannel`, `ConnectIndex.EndDeletesAnother`, `ConnectIndex.EndCrashes`).
- Index, buckets and Redis stay in agreement if and only if a connection that opens is new and its user has none
  open, or asks again for no room and is listed there under a name, and if one that ends sits in a room with a positive
  id (`Connections.StepAgreesIff`). A connection that asks again for the room it has keeps every count right, but
  links its room into a cycle (`Connections.PlainAgreesIff`, `ConnectIndex.Room.Put`). Of two
  connections of one user, ending the first silences the second (`Connections.SecondConnectionGoesSilent`); a
  connection that asks for a second room leaves its user listed and counted in the first when it ends
  (`Connections.SecondRoomLeaks`).
- A websocket connection that never names a room other than -1 is never taken out of the index
  (`ReadLoops.WsUndoesIff`); the websocket loop does not check the room id, the TCP loop does.
- The online counter drifts from the hash by exactly the slips of single commands: a connect that adds a user
  the hash holds already, come in since its check or there under an empty name, a disconnect that removes its user without lowering the count, one that
  finds its user gone, one that lowers the count for no user (`Presence.RunDrifts`). Two connects of one user
  side by side count the user twice (`Presence.TwoConnectsCountTwice`). Of whole calls, the exact conditions
  are `Presence.ConnectInStepIff` and `Presence.DisconnectInStepIff`. Register stores an empty name, because it takes
  the name from the look-up that found nothing (logic/rpc.go:47), so connecting twice with its token counts
  one user twice (`Presence.RegisteredUserCountedTwice`).
- The token of a registration is linked nowhere, so a later login does not end it
  (`Sessions.RegistrationOutlivesLogin`, `Sessions.LoginLeavesOneIff`).
- The broadcast routines are loaded fairly across the wrap of the 64-bit counter if and only if their
  number divides 2^64 (`Fanout.FairAcrossWrapIffDivides`).
- The index map of the picker is replaced, not extended, when a new server id comes (task/rpc.go:45-49). So a
  pick after a pick of another server takes instance 0, and a walk over two or more servers takes
  instance 0 of all but the first (`Dispatch.SwitchRestarts`, `Dispatch.WalkTakesFirsts`).
- A single message for a server without instances ends the task process: the worker logs that there is no client
  and calls it all the same (task/rpc.go:219-225). What waits in memory is lost, so a run conserves its messages if and
  only if every message a worker takes finds an instance of its server (`Pipeline.ConservedIffServed`). A message to a
  user who never connected, or who logged out, is such a message (`EndToEnd.StrangerEndsTask`,
  `EndToEnd.LoggedOutEndsTask`).
- A token that spells the suffix of another user's login key makes the logic layer read a string as a hash and fail
  (`Logic.SessionReads`); the connect layer answers a failed connect by ending the server (connect/rpc.go:67-70), so
  nothing is cleaned up (`ReadLoops.TcpUndoesLastPut`, `ReadLoops.WsUndoesIff`).
- A TCP frame whose length field says less than its own four bytes makes the loop panic: the cleanup runs and the server
  ends. No other length does (`ReadLoops.ShortFramePanicsIff`).
- The frame's length field holds the total length, not the payload's, and is exact if and only if the
  payload has at most 32763 bytes (`StickPackage.LengthExactIffShort`); reading a frame back restores the payload if
  and only if it has at most 32767, because taking the header off wraps the length back
  (`StickPackage.UnpackFrameIffFits`). The scanner of the TCP loop yields the frames of its stream if and only if
  no payload is longer than 32763 bytes (`TcpScanner.FramesArriveIffShort`). A frame with an empty payload comes out
  only when another byte stands behind it (`TcpScanner.FramesArrive`).
- The third unreadable frame of a TCP connection ends its read loop without an error
  (`ReadLoops.ThreeStrikes`).
- The chain of the 128-bit hash reads all of its input if and only if that is shorter than 2^31 + 16 bytes
  (`CityHash128.ComputeMurmur`); its only caller passes less than 128.
- A round of the 64-bit hash, unlike one of the 32-bit hash, merges states
  (`CityHash64.RoundMergesExactly`, `CityHash64.RoundForgets`).

## Model

| member | source | states |
|---|---|---|
| `Words.RotateIsShifts` | tools/cityhash.go:144-151 | rotating by k joins the word shifted right by k and its k low bits shifted up |
| `CityHash64.Rotate64IsShifts` | tools/cityhash.go:135-142 | the same for 64-bit words |
| `Words.BswapWord` | tools/cityhash.go:76-82 | the byte swap reverses the four bytes of a word |
| `CityHash32.FmixBijective` | tools/cityhash.go:126-133 | the final mixer loses nothing: an explicit inverse undoes it from both sides |
| `CityHash32.MurBijective` | tools/cityhash.go:166-176 | with either argument fixed, `mur` is a bijection of the other, with explicit inverses |
| `CityHash32.RoundBijective` | tools/cityhash.go:248-267 | for every 20-byte block the round is a bijection of the three state words |
| `CityHash32.FoldBijective` | tools/cityhash.go:247-278 | folding any number of blocks is undone by folding backwards |
| `CityHash32.StatesNeverMerge` | tools/cityhash.go:247-278 | over a common run of blocks two states end equal only if they began equal |
| `CityHash32.Permute3` | tools/cityhash.go:161-164 | the two swaps through pointers are a rotation of the three words |
| `CityHash32.WrappedStep` | tools/cityhash.go:194-198 | one step in wrapping signed 64-bit arithmetic, cut to 32 bits, is the 32-bit recurrence with the sign-extended byte |
| `CityHash32.ComputeLen0to4` | tools/cityhash.go:190-200 | the loop over signed 64-bit words computes the 32-bit polynomial hash, for every input |
| `CityHash32.ComputeLen5to12` | tools/cityhash.go:202-211 | reads in bounds, reads every byte, and is the specified hash |
| `CityHash32.ComputeLen13to24` | tools/cityhash.go:178-188 | six overlapping reads in bounds cover every byte, and give the specified hash |
| `CityHash32.ComputeRound` | tools/cityhash.go:248-274 | the in-place round with its swaps is the round function, and reads exactly the block's 20 bytes |
| `CityHash32.ComputeLong` | tools/cityhash.go:224-291 | the block loop equals the fold, its unsigned count never underflows, every byte is read |
| `CityHash32.Compute` | tools/cityhash.go:213-291 | for every length all reads are inside the input and together cover exactly its bytes |
| `CityHash32.NoCollision8to12` | tools/cityhash.go:202-211 | strings of equal length 8 to 12 that differ only in their first four bytes never collide |
| `CityHash32.Hash24IsChain` | tools/cityhash.go:178-188 | for 24 bytes the hash is a chain of `mur` over six words, each of which is read once |
| `CityHash32.NoCollision24` | tools/cityhash.go:178-188 | strings of 24 bytes that differ only in one aligned word never collide |
| `KnownHashes.HashOf7` | tools/cityhash.go:190-200 | the hash of "7", worked out to its value |
| `KnownHashes.HashOf42` | tools/cityhash.go:190-200 | the hash of "42", two steps of the polynomial, worked out to its value |
| `KnownHashes.HashOfFF` | tools/cityhash.go:190-200 | the hash of a byte whose sign bit is set, worked out to its value |
| `KnownHashes.HashOf12345` | tools/cityhash.go:202-211 | the hash of "12345", below eight bytes, worked out to its value |
| `KnownHashes.HashOf1234567890` | tools/cityhash.go:202-211 | the hash of "1234567890", from eight bytes on, worked out to its value |
| `KnownHashes.HashOf1234567890123` | tools/cityhash.go:178-188 | the hash of "1234567890123", worked out to its value |
| `KnownHashes.HashOfLetters` | tools/cityhash.go:213-291 | the hash of a string of 25 letters, with one block, worked out to its value |
| `KnownHashes.OwnerOf12345` | connect/server.go:47-51 | the bucket of user 12345 among 32, from its decimal print |
| `CityHash64.Compute0to16` | tools/cityhash.go:347-373 | the branches for 8, 4 and 1 bytes read in bounds and cover an input of up to 16 bytes; of a longer one the first and last eight |
| `CityHash64.Compute17to64` | tools/cityhash.go:375-417 | the overlapping reads from both ends are in bounds and cover the input |
| `CityHash64.Compute65` | tools/cityhash.go:430-455 | the block loop counts down to exactly zero, equals the fold of 64-byte blocks, and with the last block covers the input |
| `CityHash64.Compute64` | tools/cityhash.go:419-456 | for every length all reads are in bounds and together cover exactly the input |
| `CityHash64.WeakCancel` | tools/cityhash.go:384-396 | mixing four words into a pair of seeds loses neither seed |
| `CityHash64.RoundMergesExactly` | tools/cityhash.go:439-446 | two states merge over a block exactly when they agree on four words and on two sums |
| `CityHash64.RoundForgets` | tools/cityhash.go:439-446 | for any state, block and new `y` there is a state with that `y` and the same successor: the round is no bijection |
| `CityHash128.ComputeMurmur` | tools/cityhash.go:466-501 | for every length, with the conversion to a signed one: the loop ends, all reads are in bounds, it is the fold of the links; everything is read if and only if the length is below 2^31 + 16 |
| `CityHash128.ComputeBlocks` | tools/cityhash.go:529-553 | 128 is only ever taken off a length of at least 128; the loop is the fold of two blocks a turn and reads exactly them |
| `CityHash128.ComputeTail` | tools/cityhash.go:561-572 | the loop over the rest takes 32-byte pieces from the end, never in front of the input, and is the fold of them |
| `CityHash128.ComputeWithSeed` | tools/cityhash.go:508-581 | blocks from the front and 32-byte pieces from the end stay in bounds and together cover the input |
| `CityHash128.Compute128` | tools/cityhash.go:584-592 | seeds from the first 16 bytes, hashes the rest, and so reads exactly the input |
| `CityHash128.LinkCancel` | tools/cityhash.go:488-493 | one turn of the short chain loses neither its state nor the two words it takes in |
| `CityHash128.ChainsNeverMerge` | tools/cityhash.go:487-498 | over common input two chains meet only if they began equal |
| `CityHash128.OnePairShows` | tools/cityhash.go:487-498 | from one start, inputs that differ in one aligned 16-byte pair leave the chain in different states |
| `ChannelStream.OfferSound` | connect/channel.go:29-35 | a push keeps the queue within its capacity and its content in offer order |
| `ChannelStream.OfferGetsIn` | connect/channel.go:29-35 | a push gets into the queue if and only if it is not full, and otherwise changes nothing in it |
| `ChannelStream.TakeSound` | connect/server_tcp.go:260-269 | the writer's dequeue keeps capacity and order |
| `ChannelStream.DeliveredInOrder` | connect/channel.go:29-35 | what a channel delivers is an order-preserving part of what it was offered |
| `ChannelStream.ThroughIsEntering` | connect/channel.go:29-35 | over any run of pushes and receives what was delivered and what waits are exactly the messages pushed while the queue was not full, in order; all of them if and only if it never was |
| `IndexModel.OfferAllOnce` | connect/room.go:50-59 | a push along a chain offers once to each channel on it and to no other |
| `IndexModel.PutKeepsIffFits` | connect/bucket.go:71-96 | putting any channel, known or new, keeps the invariant if and only if it is on no chain, or, with no room named, carries no room or is on the chain of the one it carries, and no other user is registered with it |
| `IndexModel.StepKeeps` | connect/bucket.go:71-118 | every put that fits, delete, broadcast, handling and writing keeps: chains non-empty and disjoint, every registered channel with a room on that room's chain and no other, one channel per user, queues sound |
| `IndexModel.RunKeeps` | connect/bucket.go:71-118 | the invariant holds in every state reached by puts that fit, also when users or channels are put again |
| `IndexModel.RunStrands` | connect/bucket.go:86-88 | over any run the stranded channels are those there were and those displaced on the way, less those put again later |
| `IndexModel.ListedIsSeatedIffNoneDisplaced` | connect/bucket.go:86-88 | after any run from a new bucket, listed and registered channels agree if and only if every displaced channel was put again later |
| `IndexModel.PutTwiceStrands` | connect/bucket.go:86-108 | a run of two puts and a delete leaves a channel on a chain with no user registered |
| `ConnectIndex.Channel.Push` | connect/channel.go:29-35 | the non-blocking send: into the queue if that is not full, and the stream's offer |
| `ConnectIndex.Room.Put` | connect/room.go:30-48 | puts the channel in front of the chain, keeping the links inverse to each other, the count and the flag; a channel that is on the chain already ends up on a cycle |
| `ConnectIndex.Room.Push` | connect/room.go:50-59 | the walk along the next pointers is the push to the chain, channel by channel |
| `ConnectIndex.Room.DeleteChannel` | connect/room.go:62-80 | the constant-time unlink removes a channel of the chain and flags the room exactly when it is empty; with a channel that is not on the chain the count fits no chain, or a channel of the chain is lost |
| `ConnectIndex.Bucket.Put` | connect/bucket.go:71-96 | for any channel: the new pointers, and if the put fits the machine's put and a well-linked bucket, otherwise pointers that agree with no chains |
| `ConnectIndex.Bucket.PutMerges` | connect/room.go:35-40 | a channel on one room's chain put into another leads the first room's walk through the second's channels to its end |
| `ConnectIndex.Bucket.DeleteChannel` | connect/bucket.go:99-118 | in any bucket: deletes the id carried by the channel registered under this channel's id, and unlinks that channel from the room of that id's channel; crashes if and only if that id is not registered; in a valid bucket it takes out the registered channel from map and room |
| `ConnectIndex.EndDeletesAnother` | connect/bucket.go:103-108 | a run of three puts after which the end of one connection deletes another connection's user and leaves its own registered |
| `ConnectIndex.EndCrashes` | connect/bucket.go:103-108 | the same puts, with the ends in the other order: the second end crashes |
| `ConnectIndex.StaleSeatDropsRoom` | connect/bucket.go:80-116 | a run of puts and deletes of two users after which one is registered in a room that the index no longer has |
| `ConnectIndex.Bucket.Lookup` | connect/bucket.go:121-126 | the channel registered for a user, or none |
| `ConnectIndex.Bucket.BroadcastRoom` | connect/bucket.go:130-133 | adds one to the wrapping counter and queues the request on the routine it picks |
| `ConnectIndex.Bucket.PushRoom` | connect/bucket.go:49-60 | one turn of a routine: takes its first request and pushes it along that room's chain, if there is one |
| `ConnectIndex.Bucket.AbsInv` | connect/bucket.go:9-16 | a well-linked bucket on the heap satisfies the machine's invariant |
| `Fanout.RoutineIsQueue` | connect/bucket.go:49-60 | in every run each routine handles, first in first out, exactly what was queued on it |
| `Fanout.ExactlyOnce` | connect/bucket.go:49-60 | in every run each request is waiting or handled, as often as it was sent |
| `Fanout.StableRunConserves` | connect/room.go:50-59 | with stable membership a channel of the room is offered exactly what was sent to the room less what still waits, and what was pushed to its user alone |
| `Fanout.OthersHearOnlyPushes` | connect/room.go:50-59 | a channel on no addressed chain is offered what is pushed to its user alone, in order, and nothing else |
| `Fanout.RunThrough` | connect/room.go:50-59 | over any run of a bucket exactly those of a channel's offers get through that met a queue with room, in order |
| `Fanout.DrainOffersOnce` | connect/bucket.go:49-60 | after one broadcast and any drain each channel of the room has been offered that message once, every other channel nothing; it is through to the channel if the queue had room, with the writer at rest only then |
| `Fanout.SentToIsLoad` | connect/bucket.go:130-132 | the number of requests a run puts on a routine is how often the wrapping counter comes to it |
| `Fanout.RoutinesFair` | connect/bucket.go:130-132 | over any run two routines' loads differ by at most one without a wrap, or across it if their number divides 2^64 |
| `Fanout.FairAcrossWrapIffDivides` | connect/bucket.go:130-132 | a number of routines is fair over every stretch of the counter if and only if it divides 2^64 |
| `RoundRobin.LoadBounds` | connect/bucket.go:131 | over n consecutive counter values an index out of k is chosen n/k times or once more |
| `RoundRobin.UnfairStretch` | connect/bucket.go:131 | when k does not divide the wrapping point, some stretch across it visits index 0 twice and the last not at all |
| `ServerModel.OneBucketPerUser` | connect/server.go:47-51 | a user is registered in at most one bucket, and in the flat map exactly when in one |
| `ServerModel.ServerPutKeepsIffFits` | connect/server.go:47-51 | through the hash, too, a put keeps the server's invariant if and only if it fits the owner's bucket and the channel is idle in every other |
| `ServerModel.ServerStepKeeps` | connect/server.go:47-51 | every step keeps all buckets' invariants, the ownership of users and the disjointness of channels |
| `ServerModel.StepRefinesPlain` | connect/server.go:47-51 | a step through the hash does to the buckets together what it would do to one plain map |
| `ServerModel.RunRefinesPlain` | connect/server.go:47-51 | over every run the sharded index equals the plain map |
| `ServerModel.SinglePushFollowsPlainMap` | connect/rpc.go:139-145 | a single push comes to exactly the channel the plain map gives, in whatever bucket, and gets into its queue exactly if that has room |
| `ServerModel.RoomPushReachesAll` | connect/rpc.go:157-159 | once the routines of all buckets have drained, every channel of the room in any bucket was offered the message once, and has it if its queue had room; every other nothing |
| `ConnectServer.Server.constructor` | connect/server.go:36-43 | from empty, separate buckets a valid server |
| `ConnectServer.Server.BucketIndex` | connect/server.go:47-51 | printing the id, hashing the bytes and reducing gives the owner, always an index of a bucket |
| `ConnectServer.Server.Put` | connect/server.go:156-158 | a put that fits does to the buckets what the machine's put does, also when another bucket knew the channel; after one that does not the server is not valid |
| `ConnectServer.Server.DeleteChannel` | connect/server.go:108 | changes only the bucket of the user the channel carries, as the machine's delete does |
| `ConnectServer.Server.PushSingleMsg` | connect/rpc.go:129-150 | pushes to the registered channel; the reply is filled in exactly when there is none |
| `ConnectServer.Server.PushRoomMsg` | connect/rpc.go:153-183 | the loop hands the request to every bucket once; the calls for a message, a count and a list of members are alike |
| `StickPackage.Package.GetPackageLength` | pkg/stickpackage/stickpackage.go:47-50 | sets and returns the length with both conversions to 16 signed bits; it is header plus payload exactly up to 32763 bytes of payload |
| `StickPackage.Package.Pack` | pkg/stickpackage/stickpackage.go:22-27 | writes exactly the frame: version, big-endian length, payload |
| `StickPackage.Package.Unpack` | pkg/stickpackage/stickpackage.go:30-37 | from any package: reads back a frame whose bytes are those consumed, or says how it fails; fields that cannot be read keep what they had; a short read leaves a zeroed payload of the announced size |
| `StickPackage.LengthExactIffShort` | pkg/stickpackage/stickpackage.go:47-50 | the length field is the frame's length if and only if the payload has at most 32763 bytes |
| `StickPackage.FrameBytes` | pkg/stickpackage/stickpackage.go:22-27 | the frame of a short payload byte by byte: 'v', '1', the length with the high byte first, the payload |
| `StickPackage.UnpackFrameIffFits` | pkg/stickpackage/stickpackage.go:30-37 | unpacking a packed payload restores it, whatever follows, if and only if it has at most 32767 bytes |
| `TcpScanner.SplitIsStable` | connect/server_tcp.go:135-158 | for any bytes: more of them never change what was cut off or found unreadable, and what fills the scanner's 64 KiB without a frame never yields one |
| `TcpScanner.FirstScan` | connect/server_tcp.go:143-158 | what a scan of any bytes does first, in terms of those bytes: which begin with a frame, which end the scan with an empty token or a panic, and which wait, up to 64 KiB |
| `TcpScanner.Scanner.Scan` | connect/server_tcp.go:167 | one scan: split what is buffered, read more, or end, as the specification does |
| `TcpScanner.Scanner.ScanTokens` | connect/server_tcp.go:167 | the loop over scans yields the specified sequence of tokens and the way it ends |
| `TcpScanner.CutDoesNotMatter` | connect/server_tcp.go:135-158 | however any stream is cut into reads, the scanner yields the frames of the whole and ends as the whole does: at the end, with a token too long, in a panic, or stuck on an empty token |
| `TcpScanner.FramesArrive` | connect/server_tcp.go:135-158 | packed payloads with an unfinished frame behind them come out as exactly those frames in order, each unpacking to its payload; a final empty one is held back |
| `TcpScanner.FramesArriveIffShort` | connect/server_tcp.go:143-154 | the frames of any payloads, with anything behind them, come out in order if and only if none of the payloads has more than 32763 bytes |
| `ReadLoops.Pass` | connect/server_tcp.go:167-238 | one run of the inner loop makes the calls of the frames it takes, up to a failed scan, an unreadable frame, or a message or panic that ends the connection |
| `ReadLoops.ServeTcp` | connect/server_tcp.go:106-245 | for any stream, the calls of a TCP connection are those of the whole stream's frames, followed by the deferred ones, however the stream is cut; and whether it returns, panics or ends the server |
| `ReadLoops.ServeWs` | connect/server.go:96-164 | the calls of a websocket connection, message by message, followed by the deferred ones, and how it ends |
| `ReadLoops.ThreeStrikes` | connect/server_tcp.go:159-244 | the TCP loop handles exactly the readable messages before the third unreadable frame; it panics if and only if it comes to a fatal one before that |
| `ReadLoops.ServedCalls` | connect/server_tcp.go:167-238 | of the messages before the third unreadable frame those before one that ends the loop are handled, and that one if it is valid; the pushes to rooms are exactly the room messages among them, the requests to the logic layer exactly those to connect, the puts exactly the seats granted, each in order; the server ends if and only if the last request failed |
| `ReadLoops.WsServedCalls` | connect/server.go:124-163 | a websocket connection asks what its requests say, up to one that is refused, and puts its channel into the seats granted; the server ends if and only if the last request failed |
| `ReadLoops.ShortFramePanicsIff` | connect/server_tcp.go:143-154 | after readable frames, the next one panics if and only if its length field is below four |
| `ReadLoops.FramesServed` | connect/server_tcp.go:167-176 | for packed payloads in any pieces, the loop sees each payload decoded, in order |
| `ReadLoops.TcpUndoesLastPut` | connect/server_tcp.go:107-131 | a connection that put its channel ends by deleting the user of the last put and then telling the logic layer that user left that room; one that did not, or that ended the server, undoes nothing |
| `ReadLoops.WsUndoesIff` | connect/server.go:97-113 | a websocket connection undoes anything if and only if one of its puts named a room and it did not end the server, and then the user of its last put |
| `ReadLoops.BuildingTwicePutsTwice` | connect/server_tcp.go:196-217 | two connect requests on one connection put the same channel twice, and only the second put is undone |
| `Connections.PlainAgreesIff` | logic/rpc.go:331-354 | with a plain map for an index: from agreement of index, hashes and counters, opening keeps it if and only if the connection is new and its user has none open, or asks again for its seat and is listed there under a name; ending, if and only if its room is positive |
| `Connections.StepAgreesIff` | connect/server.go:146-158 | with the buckets: agreement and the buckets' invariant are kept if and only if, besides, a connection that asks again has no room |
| `Connections.RunAgrees` | connect/server.go:97-158 | in every run of such openings and endings buckets, hashes and counters agree |
| `Connections.CounterIsOpenConnections` | logic/rpc.go:331-354 | in every such run from new buckets, for any names and rooms, a room's counter is the number of open connections in it, its hash holds exactly their users, and each is the channel its user's pushes reach |
| `Connections.SecondConnectionGoesSilent` | connect/server.go:105-109 | with two connections of one user, ending the first leaves the second open but out of the index, and listed exactly if it is in another room |
| `Connections.SecondRoomLeaks` | connect/server_tcp.go:196-217 | a connection that asks for two rooms and ends leaves its user listed and counted in the first, with no connection |
| `Text.DecimalInjective` | connect/server.go:48 | two ids print alike only if they are equal |
| `Token.TokenShape` | tools/session_token.go:21-25 | the padded base64url form (section 5 of RFC 4648) of 32 bytes has 44 characters and ends in '=' |
| `Token.EncodeInjective` | tools/session_token.go:21-25 | different random bytes give different tokens |
| `Token.DecodeEncode` | tools/session_token.go:21-25 | any bytes are read back from their encoding, by the alphabet's character ranges |
| `RedisStore.SessionMeetsLogin` | tools/session_token.go:28-40 | a session key equals a login key exactly when the token is that key's suffix |
| `RedisStore.FamiliesApart` | logic/publish.go:182-201 | session, login, server, room-hash, room-count and queue keys meet only when a session's token spells a login key's suffix |
| `RedisStore.RenderInjective` | logic/publish.go:182-201 | for all keys and tokens: two keys are the same string exactly if they are the same key or meet in that one way, which no issued token does |
| `RedisStore.FlatRefinesTyped` | logic/publish.go:182-201 | over every run of the string, hash, counter and list commands the program issues, and of session reads with any token, the one flat keyspace answers as separate typed maps would |
| `Logic.SessionReads` | logic/rpc.go:304-308 | reading a token's session fails exactly if the token spells the suffix of a login key that is set; otherwise it finds the session, or none |
| `Logic.StepsAreCommands` | logic/rpc.go:331-354 | the steps of the calls are those commands: field set and delete, counter change, list push, and the test for an empty name |
| `Logic.StringsAreCommands` | logic/rpc.go:83-95 | what is put is found, what is deleted is not, and the reads of keys are the store's reads |
| `Logic.PopTakesOldest` | task/queue.go:29-41 | taking from the back of the list gives its oldest message and leaves the others |
| `Logic.CallsAreCommands` | logic/rpc.go:144-184 | a login's and a logout's changes are runs of the store's commands in the order the calls issue them |
| `Logic.RpcLogic.Register` | logic/rpc.go:24-61 | refuses a taken or empty name; otherwise adds the account and a session with an empty name, linked nowhere, and leaves all other sessions and links alone |
| `Logic.RpcLogic.Login` | logic/rpc.go:64-105 | granted exactly with the password of the name's account; then the new token is live and linked, the session linked before is dead, all other sessions and links are unchanged; refused, nothing changes |
| `Logic.RpcLogic.CheckAuth` | logic/rpc.go:120-142 | fails exactly for a token that clashes with a login key; else succeeds exactly for one with a session, and returns that session's user |
| `Logic.RpcLogic.Logout` | logic/rpc.go:144-184 | this session, the user's login key and its server key are gone, everything else is unchanged |
| `Logic.RpcLogic.Connect` | logic/rpc.go:294-339 | fails exactly for a token that clashes with a login key; for a live session the user is recorded on the server and in the room's hash, there under the session's name and counted exactly if its name was empty; other rooms and members are unchanged |
| `Logic.RpcLogic.DisConnect` | logic/rpc.go:342-369 | the user leaves the hash, a positive counter of a positive room goes down by one, the room's new members are queued; other rooms are unchanged |
| `Logic.RpcLogic.Push` | logic/rpc.go:187-213 | queues a single message for the server the user is recorded on |
| `Logic.RpcLogic.PushRoom` | logic/rpc.go:216-252 | queues a room message with the room's members |
| `Logic.RpcLogic.Count` | logic/rpc.go:255-269 | queues a room's counter for that room |
| `Logic.RpcLogic.GetRoomInfo` | logic/rpc.go:274-290 | queues a room's members for that room, or fails if it has none |
| `Presence.StepDrift` | logic/rpc.go:331-354 | every single command of any call, whatever else is in progress, moves counter less hash plus calls in between by exactly its slip |
| `Presence.RunDrifts` | logic/rpc.go:331-354 | for every interleaving of any calls, also on one room and user, the drift is the sum of the slips |
| `Presence.TwoConnectsCountTwice` | logic/rpc.go:331-335 | two connects whose checks both come before the first addition count one user twice |
| `Presence.StepKeeps` | logic/rpc.go:331-354 | a command of serialised calls keeps each call where the hash says it is, and slips never |
| `Presence.GuardPasses` | logic/rpc.go:346-351 | a current member's serialised disconnect always finds the counter positive |
| `Presence.CounterTracksHash` | logic/rpc.go:331-354 | for any interleaving of commands with calls on one pair serialised: never negative, never above the hash, equal to it when nothing is in flight |
| `Presence.SerialConnect` | logic/rpc.go:331-335 | the commands of one undisturbed connect are the call as a whole |
| `Presence.SerialDisconnect` | logic/rpc.go:346-359 | the commands of one undisturbed disconnect are the call as a whole |
| `Presence.ConnectInStepIff` | logic/rpc.go:331-335 | a connect keeps counter and hash in step if and only if the user is not in the room under an empty name |
| `Presence.DisconnectInStepIff` | logic/rpc.go:346-359 | a disconnect keeps them in step if and only if a member leaves a positive room, or a stranger one that is empty or not positive |
| `Presence.RegisteredUserCountedTwice` | logic/rpc.go:42-47 | two connects with the token of a registration count one user twice |
| `Sessions.RunKeeps` | logic/rpc.go:24-184 | in every run of calls: each login key names a live session of that user, at most one live session per user is unlinked, no undrawn token is live |
| `Sessions.AtMostTwoSessions` | logic/rpc.go:76-95 | from the start state a user never has three live sessions |
| `Sessions.LoginGrantedIff` | logic/rpc.go:71-73 | in every run a login is granted if and only if it gives the name and password of a registration that opened an account, for that account's user; refused, it changes nothing |
| `Sessions.LoginKillsLinked` | logic/rpc.go:83-91 | after a login the session linked before is dead in every continuation |
| `Sessions.LoggedOutForGood` | logic/rpc.go:144-184 | a token that was live and is logged out is dead in every continuation |
| `Sessions.LoginLeavesOneIff` | logic/rpc.go:76-95 | a login leaves its own session alone if and only if the user had no live session outside its login key |
| `Sessions.RegistrationOutlivesLogin` | logic/rpc.go:42-51 | registering and logging in leaves two live sessions |
| `ServiceRecords.GetParamByKey` | task/rpc.go:76-85 | the loop returns the value of the first piece that is exactly one key and one value with this key |
| `ServiceRecords.ParamIsFirst` | task/rpc.go:76-85 | that value belongs to the first piece that is the key, one '=' and a value without one; with no such piece it is empty |
| `ServiceRecords.JoinSplit` | task/rpc.go:77-79 | splitting loses nothing: the pieces are free of the separator and make up the string |
| `ServiceRecords.RegistrationReadsBackIff` | connect/rpc.go:190 | the server id is read back from the registration if and only if it is free of both separators |
| `ServiceRecords.GroupByServer` | task/rpc.go:175-200 | the loop's groups are, per server id, its well-formed records in order, with no empty group |
| `ServiceRecords.EveryRecordGrouped` | task/rpc.go:181-199 | a well-formed record is in the group of its own server id and in no other |
| `ServiceRecords.GroupMembers` | task/rpc.go:175-200 | an instance is in a group if and only if some record says its type and, as its id, the group's, neither empty |
| `ServiceRecords.RegisteredIsGrouped` | task/rpc.go:181-199 | what a connect server registers is in the group of its id, with its type and address, and in no other |
| `Dispatch.RpcConnectClient.GetRpcClientByServerId` | task/rpc.go:39-60 | finds a client exactly for a server with instances: the one the rotation stands at, which then moves on by one modulo their number |
| `Dispatch.RpcConnectClient.GetAllConnectTypeRpcClient` | task/rpc.go:63-73 | walks the server ids in some order, each once, and picks one client for each that has one |
| `Dispatch.RunRemembersOne` | task/rpc.go:45-49 | over every run of picks and replacements the index map remembers one server at most |
| `Dispatch.SwitchRestarts` | task/rpc.go:45-55 | after any run, a pick of one server right after another takes instance 0 |
| `Dispatch.WalkTakesFirsts` | task/rpc.go:63-73 | a walk yields exactly one client per server, its own, and instance 0 for all but the first |
| `Dispatch.SteadyPicks` | task/rpc.go:51-58 | in a block of picks of one server with unchanged instances the j-th takes the instance j places on, modulo their number |
| `Dispatch.SteadyPicksFair` | task/rpc.go:51-58 | in such a block no instance is used more than once more than another |
| `Pipeline.Task.LPush` | logic/publish.go:109-115 | publishing puts what the message asks for behind all that waits |
| `Pipeline.Task.BRPop` | task/queue.go:29-41 | the consumer takes the oldest message: what it holds, then what waits, is what waited |
| `Pipeline.Task.PushMessage` | task/push.go:53-77 | a single message goes to the drawn worker, any other is called at once into one client of every server that has one, and no call is lost or doubled |
| `Pipeline.Task.ProcessSinglePush` | task/rpc.go:219-231 | the process survives a worker's turn if and only if the message's server has an instance: then the oldest message of the queue is called into the picked one; else all in memory is lost |
| `Pipeline.PassedInOrder` | task/queue.go:29-41 | in every run calls leave the consumer's hand in the order they were published; it passes all of them on if and only if it held nothing whenever the process ended |
| `Pipeline.RoomCallsInOrder` | task/push.go:70-76 | room calls are handed on in publish order, and with those to come are all of the published ones if and only if none was in hand when the process ended |
| `Pipeline.WorkerIsQueue` | task/push.go:36-49 | what leaves a worker's queue is what was passed to it, in order; the worker hands on all of it if and only if nothing waited there whenever the process ended |
| `Pipeline.SinglesKeepOrder` | task/push.go:63-69 | what one worker hands on is an order-preserving part of what was published |
| `Pipeline.RunWithinCapacity` | task/push.go:63-69 | no worker's queue ever grows beyond its channel's width |
| `Pipeline.PipelineConserves` | task/push.go:53-77 | in every run each message is queued, in hand, with a worker, handed on or lost with the process, as often as it was published |
| `Pipeline.ConservedIffServed` | task/rpc.go:219-225 | a run loses nothing if and only if every message a worker takes finds an instance of its server |
| `EndToEnd.HandedOnOnce` | task/queue.go:29-41 | a run that publishes one call and ends with nothing left has handed on that call alone, or nothing if its worker found no instance of its server |
| `EndToEnd.StrangerEndsTask` | task/rpc.go:219-225 | with any table of discovered servers, a worker that takes a message for a user recorded on no server ends the process with all in its memory |
| `EndToEnd.LoggedOutEndsTask` | logic/rpc.go:168-169 | logging out, then a push to that user, ends the task process |
| `EndToEnd.SingleArrivesOnce` | task/push.go:36-49 | a message queued for a user is handed on if and only if the server the user is recorded on has an instance at its turn; it reaches an instance of that server, comes there once to the channel registered for the user, gets into its queue exactly if that has room, and comes to no other channel of any server |
| `EndToEnd.RoomArrivesOnce` | task/rpc.go:235-252 | a room message is called into one instance of every server once; after the drains every channel of the room there has been offered it once, as it was sent, and has it if its queue had room; every other channel nothing |
| `EndToEnd.CountArrivesOnce` | task/rpc.go:255-282 | the same for a room's count: to the channels of that room, with its counter as the logic layer read it |
| `EndToEnd.InfoArrivesOnce` | task/rpc.go:285-315 | the same for a room's members, as the logic layer read them |

## Left out

- etcd discovery, the rpcx transport, gorm, the websocket and TCP sockets, tickers, deadlines and logging: foreign calls; the user table is a map with unique names.
- JSON and protobuf: decoding is any function from bytes to a message, encoding is not modelled.
- Redis expiry, and MULTI and EXEC on pooled connections: each command is one step and sessions do not expire; `Register` and `Login` store a session in one step.
- Token randomness, snowflake ids and SHA-1: tokens are fresh; their shape is modelled.
- Concurrency inside one index operation: each is one atomic step, although the code reads under shared locks and `ConnectIndex.Bucket.Put` releases its lock between the map and the room.
- ConnectIndex.Bucket.DeleteChannel: in a bucket that is not valid it says how pointers, counts and registrations change; there are no chains to speak of.
- ReadLoops.ServeTcp: records the calls into the index and the logic layer in order instead of making them; the logic layer's answers and the decoding are parameters.
- Connections.StepAgreesIff: opening and ending are one step each; what happens between their Redis commands is in `Presence`. Messages on their way change no registration and are left out of these runs.
- The scanner's buffer management (growing, moving) and its limits on empty reads: a scan sees the unread bytes and the reads to come.
- A routine's buffered queue and the senders blocked on it are one sequence, in the order they will be received.
- A worker's receive and its call are one step, and so are the consumer's pop of a message and the start of its dispatch.
- Presence.CounterTracksHash: calls on one room and user are serialised, only current members disconnect, rooms are positive and names not empty; for calls of any kind in any interleaving `Presence.RunDrifts` says how far the counter is off.
- EndToEnd.SingleArrivesOnce: the message is alone in the task layer; a picker with the servers of its turn then chooses the instance.
- Narrowing of ids to 32 signed bits: ids are integers.
- CityHash64WithSeed and CityHash64WithSeeds, and GetUserInfoByUserId: they would only add easy members.
- CityHash64.Compute64 and CityHash128.Compute128: no hashes of given strings are worked out; the program itself calls only the 32-bit hash.
- Errors of the Redis connection, of the transport and of sending. The connect server ends on any error of its calls to the logic layer; here only the failed connect is an outcome.
- What the end of a server or of the task process does to its other connections, and to calls under way: the lemmas stop at that step, except that the task process may start again.
- The unused RoomId of PushParams, Bucket.broadcast and the channel's connection fields.
