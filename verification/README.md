# A verified model of the chat server and of the Redis client under it

The server keeps players in sector lists and relays chat messages between neighbours; it talks to Redis through a
pipelining client (cpp_redis) that runs on a polling network service with a pool of workers (tacopie). The project
models the parts of this that are stateful or concurrent, and proves what they promise over all inputs and all runs.
`dafny verify dfyconfig.toml` checks it.

## What is modelled

| files | subject |
|---|---|
| `Wrappers`, `Lists` | Options and facts about sequences that several modules share |
| `Decimal`, `Resp`, `Parsing`, `Grammar`, `ReplyStream`, `Standard`, `Widths` | The replies of the Redis serialization protocol (RESP version 2): the resumable parse the builders compute, the texts it takes, the stream of replies a connection yields, and the grammar of the standard beside them |
| `Builders`, `ReplyBuilder` | The builder objects: buffers consumed in place, an array builder that owns the builder of its current row, to any depth |
| `Commands`, `Pipeline`, `PipelineProofs`, `PipelineProgress`, `PipelineFailures`, `Client` | Command framing, the pipelining buffer, and the client as a protocol of steps with a server and a network that moves bytes in any pieces and may break; the client and connection objects |
| `ThreadPool`, `IoService`, `IoRounds` | The thread pool with stop and resizing, and the polling service that queues callbacks on it and removes sockets |
| `TypeLists`, `ClientKill` | The recursive checks on argument types and the construction of CLIENT KILL |
| `Messages` | The message multimap and its range overload of push |
| `Packets` | Layout of the replies the chat server builds and of the requests it reads |
| `Sector`, `Chat`, `ChatProofs`, `ChatResults`, `ChatRuns`, `ChatRequests`, `ChatServer` | The sector grid, the operations of the chat content, and both as objects updated in place |

The pattern is the same throughout: a pure function or step relation says what happens, the classes follow the fields
and loops of the source and are proved to compute it, and the main theorems are about the functions and about every run.
So that these functions are not only compared with themselves, their effects are stated once more in plain terms, with
numbers, words and bytes written out: `Widths` for what goes over the wire, `PipelineFailures` for losses and commits,
`IoRounds` for the poll, `ThreadPools.ResizeReaches` and `StopIsFinal` for the pool, `ChatRequests` for every packet.

Three descriptions of the protocol meet. `Parsing.Consume` is the resumable machine of the builders. `Resp.Denotes` says,
as a relation between texts and replies, what that machine takes; `Grammar.StartExact` and `ReplyStream.AcceptsExactly`
prove it in both directions. `Denotes` reads numbers and lines as the builders do, so it is not the standard.
`Standard.Text` is: the grammar of the sections "Simple strings", "Simple errors", "Integers", "Bulk strings", "Null bulk
strings", "Arrays" and "Null arrays" on its own, with a switch for each point where readers differ.
`Standard.DenotesIff` says which dialect the builders read, `Standard.StandardReadIff` which texts of the standard, and
`Standard.CommandIsStandard` that what the client writes ("Sending commands to a Redis server") always is standard.

## What the headers leave open

The bodies of cpp_redis and tacopie are not in the repository: only headers are. There the state is the declared
fields, and each step follows its documented contract and the standard. These readings are choices of the model:

- Builders: a header line waits for its CRLF. A type byte without a builder, a character that is no digit (a plus sign
  included: the minus is the only sign the integer builder has a field for), a magnitude beyond int64, a bulk size beyond
  a C++ int, a size below -1 and a payload without its terminator are refused; the reply builder keeps what it built
  before, and the client drops the connection. A line without digits counts as zero, since the integer builder has no
  field that counts digits. A line ends at CRLF only: a CR or LF alone is kept. Size -1 is the null reply for bulk
  strings and for arrays.
- -2^63 is refused: its magnitude does not fit the accumulator, which is separate from the sign.
- `build_command` frames arguments as bulk strings, as the standard asks for. The comment beside it shows simple
  strings; `Commands.InlineExact` says when that form works.
- Client: nothing is sent while a reconnection is in progress, and commit then does nothing; a failed commit empties
  the buffer and clears the pending commands; a lost connection and a reconnection reset parser and buffer, a first
  connection keeps what is buffered; a successful attempt to reconnect sends every pending command again, in order. An id
  stands for a callback.
- Server: it answers the requests of a connection in order, with any replies that fit.
- Thread pool and polling service: a region guarded by a mutex is one step, a wait is the guard of a step. The poll
  takes up an event if the callback is set and not executing; the end of a callback and a wake-up of the poll both
  forget a marked socket that is idle.

The bodies of `client_kill`, the type-list predicates, `message_type`, `Sector.cpp`, `ChatContents.cpp` and
`SCCContents.cpp` are present and are followed branch by branch. The comments in `Sector.cpp` and `ChatContents.cpp` are
not UTF-8 text, so the table cites the declarations in `Sector.h` and `ChatContents.h` and names the body lines beside
them.

## Where the code departs from what it says

- With these readings the builders differ from the standard in four points, each with its exact condition and an input
  (`Standard.DifferencesAreReal`). An integer with a plus sign is standard and refused (`Standard.PlusIsRefused`). Not
  standard but taken are a number without digits, as zero (`Standard.NoDigitsAreZero`), a minus sign on length zero and
  leading zeros of length -1 (the dialect in `Standard.DenotesIff`), and a line with a CR or LF of its own
  (`Standard.LoneBreakIsKept`). A text of the standard is read exactly if it fits and has no plus sign
  (`Standard.StandardReadIff`).
- `IsNonValidSector` admits coordinate 50. Such a place has no list of its own: `Sectors.OwnListIff` gives the exact
  condition. Messages then go wrong in both directions: players 50 sectors apart reach each other
  (`ChatResults.EdgeIsHeardFarAway`, `ChatResults.EdgeReachesFarAway`), and from sector 49 the neighbour at sector 50 is
  not reached (`ChatResults.EdgeIsMissedNearby`). `ChatResults.EarshotExactly` says who is reached in every case,
  `ChatResults.EarshotIsNearnessIff` for which pairs of coordinates that is nearness, and `ChatRuns.EveryPairMeets` that
  each pair comes up in some run. `ChatProofs.MoveDefinedIff` and `ChatRuns.MoveLeavesBlockIff` say when a move leaves
  the block of lists altogether.
- A player's sector fields are not set before its first move, and a chat request does not ask whether there was one. A
  player who chats first is read wherever those fields happen to point: `ChatRuns.ChatBeforeMoveIff`.
- `OnLeave` reads the login entry of the account without checking that there is one, although a comment in it says that
  a player thrown out by a second login will not be found. `ChatProofs.LeaveDefinedIff` gives the exact condition and
  `ChatRuns.KickedLeavesLast` a run of four events where there is no entry. A monitoring client has none to begin with:
  `ChatRuns.MonitorLeavesBadly`. Undefined behaviour of this kind is the outcome `Fault` of the model.
- The sizes packet stops the program at a list of 128 to 255 players (modulo 256): `ChatResults.SizesExact`,
  and `ChatRuns.CrowdStopsServerIff` for the runs that get there.
- The range overload of `message_type::push` never advances its index: `Messages.Message.PushRange`.
- The check of `client_kill` asks for one value per filter type, but counts types: `ClientKills.PairCounts` and
  `ClientKills.TwoIdsAreAccepted`. For a `bool` both the bool and the integral overload exist; the bool one matches
  without a conversion and is taken. Negative ids become unsigned 64-bit numbers.

## Model
| member | source | states |
|---|---|---|
| Decimal.PrintIsDigits | ChatServer_Redis/cpp_redis/impl/client.ipp:51-56 | Printing a number, as ids, ports and the headers of a frame are, gives at least one character, all digits, whose positional value is that number |
| Decimal.ParsePrinted | ChatServer_Redis/cpp_redis/builders/integer_builder.hpp:92-102 | A printed integer is read back as itself exactly when its magnitude is at most 2^63-1; everything else, -2^63 included, is refused |
| Decimal.ScanStep | ChatServer_Redis/cpp_redis/builders/integer_builder.hpp:92-96 | Each digit multiplies by ten and adds; the accumulator never exceeds the value of the whole text |
| Builders.IntegerBuilder.ReadNumber | ChatServer_Redis/cpp_redis/builders/integer_builder.hpp:92-102 | The digit loop succeeds exactly on texts of integers that fit; then sign times accumulator is the value and the accumulator stayed within int64 |
| Builders.IntegerBuilder.Push | ChatServer_Redis/cpp_redis/builders/integer_builder.hpp:63-89 | One call takes a complete CRLF line or nothing, and gives the stage and leftover bytes of the specified step |
| Resp.HasFormIffFits | ChatServer_Redis/cpp_redis/core/reply.hpp:53-60 | A reply tree has some text the builders take for it if and only if its parts fit, and then its encoding is one |
| Standard.ParseIntExactly | ChatServer_Redis/cpp_redis/builders/integer_builder.hpp:92-102 | The integer builder reads a line as v exactly if v fits and the line is an optional minus sign and digits worth v, possibly none |
| Standard.ReadsStandardIntegersIff | ChatServer_Redis/cpp_redis/builders/integer_builder.hpp:92-102 | Against the integers of the standard: the same, except that a plus sign is refused and a line without digits is zero |
| Standard.DenotesIff | ChatServer_Redis/cpp_redis/builders/builders_factory.hpp:33-44 | What the builders take for a reply of any nesting is exactly its texts in one stated dialect of the grammar, if it fits |
| Standard.TextsMeet | ChatServer_Redis/cpp_redis/builders/array_builder.hpp:64-106 | Two texts at the start of the same bytes, even in two dialects, are the same text of the same reply, and a text of what the dialects share: the grammar is prefix-free and unambiguous on its own |
| Standard.StandardReadIff | ChatServer_Redis/cpp_redis/builders/reply_builder.hpp:66-74 | Replies written as the standard says are read, as those and no others, exactly if all fit and no integer has a plus sign |
| Standard.ReadIsStandardIff | ChatServer_Redis/cpp_redis/builders/reply_builder.hpp:66-74 | What is read is standard exactly if it is in the strictest dialect |
| Standard.HasStandardTextIff | ChatServer_Redis/cpp_redis/core/reply.hpp:53-60 | A reply has a standard text exactly if its lines hold no CR and no LF, and then its encoding is one |
| Standard.CommandIsStandard | ChatServer_Redis/cpp_redis/network/redis_connection.hpp:165-170 | Every command, whatever its arguments hold and however long they are, is framed as the standard says |
| Standard.PlusIsRefused | ChatServer_Redis/cpp_redis/builders/integer_builder.hpp:98-102 | Every standard integer with a plus sign is refused |
| Standard.NoDigitsAreZero | ChatServer_Redis/cpp_redis/builders/integer_builder.hpp:92-96 | A line without digits is read as zero and is not standard |
| Standard.LoneBreakIsKept | ChatServer_Redis/cpp_redis/builders/simple_string_builder.hpp:65-71 | A line with a CR or LF of its own is read whole and is not standard |
| Standard.DifferencesAreReal | ChatServer_Redis/cpp_redis/builders/builders_factory.hpp:33-44 | One input for each difference between the builders and the standard |
| Widths.IntegerReadIff | ChatServer_Redis/cpp_redis/builders/integer_builder.hpp:92-102 | Under any chunking an integer line is read as itself from -9223372036854775807 to 9223372036854775807 and refused beyond |
| Widths.BulkSizeIff | ChatServer_Redis/cpp_redis/builders/bulk_string_builder.hpp:90-92 | A bulk size up to 2147483647 is waited for, a larger one or one below -1 is refused before its payload |
| Widths.BulkReadIff | ChatServer_Redis/cpp_redis/builders/bulk_string_builder.hpp:90-97 | A payload of at most 2147483647 bytes comes back under any chunking, a longer one is refused |
| Widths.CountIff | ChatServer_Redis/cpp_redis/builders/array_builder.hpp:88-119 | A count of rows up to 9223372036854775807 is accepted, a larger one or one below -1 refused; 0 and -1 give the empty array and null at once |
| Widths.NumbersAreDecimal | ChatServer_Redis/cpp_redis/impl/client.ipp:55 | Numbers are written in base ten, most significant digit first |
| Widths.WireForms | ChatServer_Redis/cpp_redis/core/reply.hpp:53-60 | One reply of each of the six types, byte for byte |
| Widths.SamplesRead | ChatServer_Redis/cpp_redis/builders/reply_builder.hpp:66-74 | Those bytes are read as those replies under any chunking |
| Widths.CommandOnTheWire | ChatServer_Redis/cpp_redis/network/redis_connection.hpp:165-170 | The bytes of a command of two short words |
| Parsing.Consume | ChatServer_Redis/cpp_redis/builders/array_builder.hpp:64-106 | What a builder leaves is a suffix of what it was given, strictly shorter once its reply is ready; it terminates over unread bytes and nesting depth |
| Parsing.Start | ChatServer_Redis/cpp_redis/builders/builders_factory.hpp:33-44 | Choosing a builder by the type byte and feeding it uses at least that byte and leaves a suffix |
| Parsing.Resumable | ChatServer_Redis/cpp_redis/builders/builder_iface.hpp:42-50 | Any builder, at any nesting depth, fed s and later t ends exactly as if fed s and t at once: same reply, same leftover, same refusal |
| Parsing.FindBreak | ChatServer_Redis/cpp_redis/builders/simple_string_builder.hpp:65-71 | The position found is a line break and the first one; none is found only if there is none |
| Grammar.Complete | ChatServer_Redis/cpp_redis/builders/array_builder.hpp:64-106 | Every text of a reply, whatever follows it, makes a fresh builder finish with that reply and leave what follows untouched |
| Grammar.Sound | ChatServer_Redis/cpp_redis/builders/array_builder.hpp:64-106 | Whenever a fresh builder finishes, the bytes it used are a text of its reply |
| Grammar.StartExact | ChatServer_Redis/cpp_redis/builders/array_builder.hpp:64-106 | A fresh builder finishes with reply r leaving t if and only if the used bytes denote r: the resumable machine takes exactly the texts of the relation |
| Grammar.PrefixFree | ChatServer_Redis/cpp_redis/builders/reply_builder.hpp:66-74 | No text of a reply is a proper prefix of a text of a reply, and no text denotes two replies |
| Grammar.RoundTrip | ChatServer_Redis/cpp_redis/builders/array_builder.hpp:64-106 | Parsing the encoding of a tree of any nesting, followed by any bytes, yields the tree and those bytes exactly when the tree fits |
| Grammar.CompleteBulk | ChatServer_Redis/cpp_redis/builders/bulk_string_builder.hpp:49-56 | A bulk string of any bytes, line breaks and type bytes included, is returned whole and the bytes behind its terminator are left |
| Grammar.CompleteRows | ChatServer_Redis/cpp_redis/builders/array_builder.hpp:98-106 | An array with some rows built finishes with those rows followed by exactly the rows its remaining text denotes |
| Grammar.SoundRows | ChatServer_Redis/cpp_redis/builders/array_builder.hpp:98-134 | An array finishes with exactly the fetched number of rows: those it had and those the used bytes denote |
| ReplyStream.DrainResumes | ChatServer_Redis/cpp_redis/builders/reply_builder.hpp:108-115 | Building all replies and then appending bytes ends as appending them first |
| ReplyStream.FeedSettles | ChatServer_Redis/cpp_redis/builders/reply_builder.hpp:66-74 | After any call no further reply can be built without further bytes |
| ReplyStream.ChunksDoNotMatter | ChatServer_Redis/cpp_redis/builders/reply_builder.hpp:66-74 | For every byte string, every way of cutting it into calls, and every settled state: the buffer, the half-built builder and the reply queue end the same as for one call, failures included |
| ReplyStream.TakingDoesNotMatter | ChatServer_Redis/cpp_redis/builders/reply_builder.hpp:76-100 | Interleaving pops with feeding in any order changes neither the replies nor their order: those taken and those still queued are what feeding alone gives |
| ReplyStream.LongestPrefix | ChatServer_Redis/cpp_redis/builders/reply_builder.hpp:66-74 | The replies available after any bytes, also refused ones, are denoted by a prefix of the bytes, and every list denoted by a prefix is a prefix of them |
| ReplyStream.AcceptsExactly | ChatServer_Redis/cpp_redis/builders/reply_builder.hpp:117-134 | The builder is idle with an empty buffer holding exactly rs if and only if the bytes are a text of rs |
| ReplyStream.StreamRoundTrip | ChatServer_Redis/cpp_redis/builders/reply_builder.hpp:66-74 | The encodings of any reply trees, concatenated and cut anywhere, come out as exactly those trees with nothing left over, if and only if all of them fit |
| Builders.SimpleStringBuilder.Push | ChatServer_Redis/cpp_redis/builders/simple_string_builder.hpp:63-83 | Takes the bytes before the first CRLF and the CRLF, or nothing yet; once ready it takes nothing |
| Builders.ErrorBuilder.Push | ChatServer_Redis/cpp_redis/builders/error_builder.hpp:62-82 | Delegates to its string builder and turns the line into an error reply |
| Builders.BulkStringBuilder.FetchSize | ChatServer_Redis/cpp_redis/builders/bulk_string_builder.hpp:78-102 | Reads the size line: -1 gives the null reply, other negatives and sizes beyond a C++ int are refused, else the size is kept |
| Builders.BulkStringBuilder.FetchStr | ChatServer_Redis/cpp_redis/builders/bulk_string_builder.hpp:78-112 | Takes exactly the announced bytes and CRLF, waits when they are not all there, refuses another terminator |
| Builders.BulkStringBuilder.Push | ChatServer_Redis/cpp_redis/builders/bulk_string_builder.hpp:49-76 | One call computes the specified step over size and payload, wherever the previous call stopped |
| Builders.CreateBuilder | ChatServer_Redis/cpp_redis/builders/builders_factory.hpp:33-44 | The object made for a type byte is the one of the five kinds the byte names, in its initial stage; other bytes give none |
| Builders.PushTo | ChatServer_Redis/cpp_redis/builders/builder_iface.hpp:42-50 | Whatever the class of the builder, a call removes from the buffer what it used and takes one step |
| Builders.ArrayBuilder.FetchArraySize | ChatServer_Redis/cpp_redis/builders/array_builder.hpp:88-96 | Reads the number of rows: -1 gives null, 0 the empty array, other negatives are refused |
| Builders.ArrayBuilder.PushRow | ChatServer_Redis/cpp_redis/builders/array_builder.hpp:98-106 | A finished row joins the array and its builder is dropped; an unfinished one stays; the reply is ready exactly when the fetched size is reached, which it never exceeds |
| Builders.ArrayBuilder.BuildRow | ChatServer_Redis/cpp_redis/builders/array_builder.hpp:98-106 | A row goes on with the owned builder or with a new one chosen by the next byte |
| Builders.ArrayBuilder.Push | ChatServer_Redis/cpp_redis/builders/array_builder.hpp:64-73 | The loop over rows, with builders owned to any depth, computes the specified step on the mutable objects |
| ReplyBuilders.ReplyBuilder.Append | ChatServer_Redis/cpp_redis/builders/reply_builder.hpp:66-74 | Updates buffer, builder and queue to those of the specified stream, keeping the replies built before a refusal |
| ReplyBuilders.ReplyBuilder.BuildReply | ChatServer_Redis/cpp_redis/builders/reply_builder.hpp:108-115 | Builds one reply and shortens the buffer, or reports that none is complete; in both cases what can still be built is unchanged |
| ReplyBuilders.ReplyBuilder.GetFront | ChatServer_Redis/cpp_redis/builders/reply_builder.hpp:84-88 | Gives the first available reply |
| ReplyBuilders.ReplyBuilder.PopFront | ChatServer_Redis/cpp_redis/builders/reply_builder.hpp:90-94 | Removes the first reply and nothing else |
| ReplyBuilders.ReplyBuilder.Reset | ChatServer_Redis/cpp_redis/builders/reply_builder.hpp:102-106 | Returns to the initial state from any state |
| Commands.FramingExact | ChatServer_Redis/cpp_redis/network/redis_connection.hpp:165-170 | A reader of the pipelining buffer, in any chunks, finds exactly the commands sent if and only if all are sendable, whatever bytes their arguments hold |
| Commands.CommandUnique | ChatServer_Redis/cpp_redis/network/redis_connection.hpp:165-170 | For arguments of any number and length: a frame determines its command and where it ends, so no two commands share one and none starts another |
| Commands.FramingUnique | ChatServer_Redis/cpp_redis/network/redis_connection.hpp:128-137 | For arguments of any number and length: the buffer determines the commands, and no buffer ends inside another except between commands |
| Commands.InlineExact | ChatServer_Redis/cpp_redis/network/redis_connection.hpp:165-170 | In the form of the comment, with arguments as simple strings, a command is read back exactly when no argument holds a line break |
| Commands.InlineLosesBreaks | ChatServer_Redis/cpp_redis/network/redis_connection.hpp:165-170 | An argument with a line break is not read back in that form |
| Clients.RedisConnection.Send | ChatServer_Redis/cpp_redis/network/redis_connection.hpp:128-137 | Appends the framed command to the buffer and writes nothing to the network |
| Clients.RedisConnection.Flush | ChatServer_Redis/cpp_redis/network/redis_connection.hpp:139-146 | Writes the whole buffer when connected and empties it in every case |
| Clients.RedisClient.Connect | ChatServer_Redis/cpp_redis/core/client.hpp:105-122 | A connection made sets the limit of reconnections, starts replies afresh and keeps the pending commands and what is buffered |
| Clients.RedisClient.UnprotectedSend | ChatServer_Redis/cpp_redis/core/client.hpp:182-195 | The command and its callback join the end of the queue and its bytes the end of the buffer |
| Clients.RedisClient.TryCommit | ChatServer_Redis/cpp_redis/core/client.hpp:2240-2245 | Without a connection fails, empties the buffer and clears every pending callback; otherwise writes the buffer |
| Clients.RedisClient.Commit | ChatServer_Redis/cpp_redis/core/client.hpp:226-234 | Does nothing while reconnecting, else as try_commit |
| Clients.RedisClient.SyncCommit | ChatServer_Redis/cpp_redis/core/client.hpp:224-246 | Commits unless reconnecting and evaluates the condition that is waited for |
| Clients.RedisClient.Receive | ChatServer_Redis/cpp_redis/network/redis_connection.hpp:149-156 | Network bytes update the reply builder only; refused bytes drop the connection |
| Clients.RedisClient.TakeReply | ChatServer_Redis/cpp_redis/core/client.hpp:2217-2224 | The first reply goes with the oldest pending command, which leaves the queue while one more callback runs |
| Clients.RedisClient.CallbackDone | ChatServer_Redis/cpp_redis/core/client.hpp:2358-2362 | One callback fewer runs |
| Clients.RedisClient.ConnectionLost | ChatServer_Redis/cpp_redis/core/client.hpp:2226-2232 | Parser and buffer restart; commands stay pending if a reconnection will be tried, else they are cleared |
| Clients.RedisClient.Reconnect | ChatServer_Redis/cpp_redis/core/client.hpp:255-272 | A successful attempt writes exactly the pending commands, in order |
| Clients.RedisClient.ResendFailedCommands | ChatServer_Redis/cpp_redis/core/client.hpp:255-259 | Takes every command off the queue and sends it anew: the queue ends as it was and the buffer holds their bytes in order |
| Clients.RedisClient.ClearCallbacks | ChatServer_Redis/cpp_redis/core/client.hpp:2234-2238 | Empties the queue of pending commands and nothing else |
| Clients.RedisClient.AttemptFailed | ChatServer_Redis/cpp_redis/core/client.hpp:2311-2316 | A failed attempt is counted and everything pending stays |
| Clients.RedisClient.StopReconnecting | ChatServer_Redis/cpp_redis/core/client.hpp:248-253 | With no attempt left or reconnecting cancelled, the pending commands are cleared and reconnecting ends |
| Clients.RedisClient.CancelReconnect | ChatServer_Redis/cpp_redis/core/client.hpp:161-165 | Cancels further attempts and touches nothing else |
| PipelineProofs.EveryRun | ChatServer_Redis/cpp_redis/core/client.hpp:2334-2362 | Over any interleaving of sends, commits, network, server and callback steps, losses and reconnections: the ledger, the order and the link between pending commands and bytes in flight hold |
| PipelineProofs.EachCallbackGetsItsReply | ChatServer_Redis/cpp_redis/core/client.hpp:2217-2224 | The k-th callback started on a connection belongs to the command the server answered k-th, got that very answer, and callbacks start in sending order |
| PipelineProofs.ExactlyOnePlace | ChatServer_Redis/cpp_redis/core/client.hpp:2253-2261 | At any time each command sent is exactly one of pending, running, completed and cleared, once |
| PipelineProofs.QuietMeansSettled | ChatServer_Redis/cpp_redis/core/client.hpp:236-243 | When no callback runs and no command is pending, every command ever sent has completed or been cleared, exactly once |
| PipelineProofs.NoReplyIsLost | ChatServer_Redis/cpp_redis/core/client.hpp:2217-2224 | A reply never arrives without a command waiting for it, and neither end ever refuses bytes in flight |
| PipelineProofs.DrainedNetwork | ChatServer_Redis/cpp_redis/core/client.hpp:208-215 | When all is committed, answered and delivered, no command is left waiting |
| PipelineFailures.LossIsRepairedIff | ChatServer_Redis/cpp_redis/core/client.hpp:248-259 | After a loss from any reachable state: if the last connect allowed attempts and none was cancelled, every command goes on waiting in order and an attempt can be made; otherwise all are cleared in order and none will be |
| PipelineFailures.AttemptsUpToTheLimit | ChatServer_Redis/cpp_redis/core/client.hpp:2307-2332 | After such a loss and k failed attempts, giving up is possible exactly if k has reached the limit of the last connect or somebody cancelled, and a further attempt exactly otherwise; the commands wait |
| PipelineFailures.AttemptsCount | ChatServer_Redis/cpp_redis/core/client.hpp:2311-2316 | Every attempt is counted, whether it succeeds or fails |
| PipelineFailures.GivingUpClears | ChatServer_Redis/cpp_redis/core/client.hpp:248-253 | Giving up clears every waiting command in order and ends reconnecting |
| PipelineFailures.CommitByConnection | ChatServer_Redis/cpp_redis/core/client.hpp:197-206 | A commit writes the buffer behind what is in flight if connected, does nothing while reconnecting, and otherwise clears the waiting commands and empties the buffer |
| PipelineProgress.NeverStuck | ChatServer_Redis/cpp_redis/core/client.hpp:208-215 | From every reachable state, connected or not or reconnecting, some continuation of the run ends with no command pending and no callback running |
| PipelineProgress.EveryServingRunEnds | ChatServer_Redis/cpp_redis/core/client.hpp:208-215 | No endless sequence of server, delivery and callback steps starts from a reachable connected state |
| PipelineProgress.EveryServingRunSettles | ChatServer_Redis/cpp_redis/core/client.hpp:208-215 | When everything is committed, any run of such steps that can go no further ends with no command pending and no callback running |
| PipelineProofs.ResentInOrder | ChatServer_Redis/cpp_redis/core/client.hpp:255-259 | After a reconnection the server will read exactly the pending commands, once each and in order, and their callbacks still wait |
| PipelineProofs.PopQueue | ChatServer_Redis/cpp_redis/builders/reply_builder.hpp:90-94 | Taking a reply leaves the reader settled and everything it will still get, in order |
| PipelineProofs.ReadPart | ChatServer_Redis/cpp_redis/builders/reply_builder.hpp:66-74 | Reading part of the bytes in flight changes nothing about what there is to read |
| ThreadPools.EveryRun | ChatServer_Redis/tacopie/utils/thread_pool.hpp:138-162 | Over any run of adds, worker steps, stop and resizes: started tasks followed by queued ones are all tasks in the order of adding, started ones are running or finished, and the running count is the number of workers |
| ThreadPools.ExactlyOnePlace | ChatServer_Redis/tacopie/utils/thread_pool.hpp:60-72 | Each added task is exactly one of queued, running and finished, once, and tasks start in the order they were added |
| ThreadPools.NothingStartsAfterStop | ChatServer_Redis/tacopie/utils/thread_pool.hpp:82-86 | After a stop nothing queued is ever started, whatever happens |
| ThreadPools.StopCompletes | ChatServer_Redis/tacopie/utils/thread_pool.hpp:82-86 | The wait of a stop ends: a stopped pool has no workers left after a bounded number of worker steps |
| ThreadPools.WorkersShrinkSafely | ChatServer_Redis/tacopie/utils/thread_pool.hpp:94-107 | Only a resize adds workers; a worker that goes holds no task, loses none, and the pool never shrinks below its target |
| ThreadPools.ResizeReaches | ChatServer_Redis/tacopie/utils/thread_pool.hpp:94-107 | Told n workers, a pool not stopped has at once the larger of n and what it had, the old ones undisturbed; once its workers can go no further it has exactly n |
| ThreadPools.StopIsFinal | ChatServer_Redis/tacopie/utils/thread_pool.hpp:82-86 | After a stop, in every run, nothing is started, what is queued stays queued, and workers that can go no further have all left |
| ThreadPools.NoTaskIsStuck | ChatServer_Redis/tacopie/utils/thread_pool.hpp:123-131 | If the pool was not stopped and no worker can move, the queue is empty or the pool was told to have no workers |
| ThreadPools.WorkersFinishEverything | ChatServer_Redis/tacopie/utils/thread_pool.hpp:60-72 | Left to its workers a pool comes to rest after a bounded number of their steps, whichever they take; every task added is then finished if it was not stopped and may have workers |
| ThreadPools.LiveAfter | ChatServer_Redis/tacopie/utils/thread_pool.hpp:60-72 | Adding makes a task live, the end of its run ends that, and no other step does either |
| ThreadPools.ThreadPool.Enqueue | ChatServer_Redis/tacopie/utils/thread_pool.hpp:60-80 | A task joins the end of the queue |
| ThreadPools.ThreadPool.FetchTaskOrStop | ChatServer_Redis/tacopie/utils/thread_pool.hpp:123-136 | A worker is told to leave when the pool stops or has too many workers, else it gets the first task of the queue |
| ThreadPools.ThreadPool.TaskDone | ChatServer_Redis/tacopie/utils/thread_pool.hpp:118-121 | The worker is free again and its task is finished |
| ThreadPools.ThreadPool.RequestStop | ChatServer_Redis/tacopie/utils/thread_pool.hpp:154-157 | The part of a stop before it waits: sets the flag; queue and workers stay as they are |
| ThreadPools.ThreadPool.Stop | ChatServer_Redis/tacopie/utils/thread_pool.hpp:82-86 | Sets the flag and waits until all workers have left, in whatever order they come: every started task is finished, the queued ones are left and not started |
| ThreadPools.ThreadPool.SetNbThreads | ChatServer_Redis/tacopie/utils/thread_pool.hpp:94-107 | Spawns workers until the target is reached; too many workers stay until they ask for work |
| ThreadPools.ThreadPool.constructor | ChatServer_Redis/tacopie/utils/thread_pool.hpp:43-49 | Starts with the given number of idle workers and an empty queue |
| IoServices.EveryRun | ChatServer_Redis/tacopie/network/io_service.hpp:143-169 | Over any run: a socket flag is set exactly while one task for that side of the socket is queued or executing |
| IoServices.RemovedOnlyWhenQuiet | ChatServer_Redis/tacopie/network/io_service.hpp:122-132 | An entry goes only if marked, only at a poll wake-up or at the return of a callback of that socket, and then no callback of it is queued or executing |
| IoServices.UntrackedIsQuiet | ChatServer_Redis/tacopie/network/io_service.hpp:134-140 | Once the entry is gone, which is what waiting for removal waits for, nothing of that socket is in flight |
| IoServices.WakeRemovesIff | ChatServer_Redis/tacopie/network/io_service.hpp:122-132 | A poll wake-up removes a socket exactly if it is marked and nothing of it is in flight |
| IoServices.RetrackCancels | ChatServer_Redis/tacopie/network/io_service.hpp:128 | Tracking a socket again, pending removal or not, keeps its entry until somebody untracks it |
| IoServices.UntrackCompletes | ChatServer_Redis/tacopie/network/io_service.hpp:122-132 | After untracking, once the callbacks of the socket are done, the next wake-up leaves no entry |
| IoServices.StoppedStaysTracked | ChatServer_Redis/tacopie/network/io_service.hpp:134-140 | After a stop of the workers the socket of a queued callback stays tracked in every further run, so waiting for its removal never returns |
| IoServices.MarkedCanGo | ChatServer_Redis/tacopie/network/io_service.hpp:122-132 | In any state a marked socket without a queued callback has a continuation that removes it |
| IoServices.StoppedRemovalIff | ChatServer_Redis/tacopie/network/io_service.hpp:134-140 | After a stop a marked socket can still be removed exactly if none of its callbacks is queued |
| IoServices.LatestCallbackRuns | ChatServer_Redis/tacopie/network/io_service.hpp:91-120 | An event on a socket runs the callback registered last for its side, whatever happened in between |
| IoServices.OneCallbackPerSide | ChatServer_Redis/tacopie/network/io_service.hpp:193-206 | No socket has two callbacks for the same side in flight |
| IoServices.RunsItsPool | ChatServer_Redis/tacopie/network/io_service.hpp:224-227 | Every run of the service drives its workers through a run of the thread pool |
| IoServices.CallbacksStartInOrder | ChatServer_Redis/tacopie/network/io_service.hpp:224-227 | Callbacks start in the order their events were reported |
| IoRounds.RoundHandsOver | ChatServer_Redis/tacopie/network/io_service.hpp:186-206 | A round over distinct sockets hands over exactly what the entries before it call for: the read callback of each polled readable socket not executing one, the write callback of each writable one, in the order of polling |
| IoRounds.HandedOverIff | ChatServer_Redis/tacopie/network/io_service.hpp:186-206 | Each such callback is handed over once, and nothing else is |
| IoRounds.RoundLeaves | ChatServer_Redis/tacopie/network/io_service.hpp:186-206 | After a round every polled socket has the flags of what was handed over and is gone exactly if marked and idle; every other socket is as before |
| IoRounds.RoundQueues | ChatServer_Redis/tacopie/network/io_service.hpp:224-227 | A round queues one task for each callback handed over and disturbs no worker |
| IoRounds.ReturnForgetsIff | ChatServer_Redis/tacopie/network/io_service.hpp:122-132 | The return of a callback forgets its socket exactly if it was marked and nothing else of it is in flight |
| IoRounds.SetTouchesOneSide | ChatServer_Redis/tacopie/network/io_service.hpp:104-120 | Setting a callback leaves the other side, the flags and the mark of its socket alone, and every other socket |
| IoRounds.StartsIdle | ChatServer_Redis/tacopie/network/io_service.hpp:57-77 | A service starts with nothing tracked and the given number of idle workers |
| IoServices.RoundIsRun | ChatServer_Redis/tacopie/network/io_service.hpp:186-190 | A round over the polled sockets is a run of single steps, so the results above cover it |
| IoServices.RoundForgets | ChatServer_Redis/tacopie/network/io_service.hpp:186-190 | After a round no polled socket is left that could be removed |
| IoServices.IoService.TrackSocket | ChatServer_Redis/tacopie/network/io_service.hpp:93-102 | Sets both callbacks and clears the mark, making the entry if there is none; the flags stay |
| IoServices.IoService.SetRdCallback | ChatServer_Redis/tacopie/network/io_service.hpp:104-111 | Sets the read callback, tracking the socket if it is not |
| IoServices.IoService.SetWrCallback | ChatServer_Redis/tacopie/network/io_service.hpp:113-120 | Sets the write callback, tracking the socket if it is not |
| IoServices.IoService.UntrackSocket | ChatServer_Redis/tacopie/network/io_service.hpp:122-132 | Marks the entry and removes nothing itself |
| IoServices.IoService.ProcessRdEvent | ChatServer_Redis/tacopie/network/io_service.hpp:192-198 | Sets the read flag and hands the read callback to the workers |
| IoServices.IoService.ProcessWrEvent | ChatServer_Redis/tacopie/network/io_service.hpp:200-206 | Sets the write flag and hands the write callback to the workers |
| IoServices.IoService.ProcessEvents | ChatServer_Redis/tacopie/network/io_service.hpp:186-190 | The loop over polled sockets computes the specified round |
| IoServices.IoService.CallbackDone | ChatServer_Redis/tacopie/network/io_service.hpp:143-169 | Clears the flag of its side and forgets the socket if it is marked and idle |
| TypeLists.BackIsLast | ChatServer_Redis/cpp_redis/helpers/variadic_template.hpp:34-54 | The recursion finds the last type of the list |
| TypeLists.PresentIffOccurs | ChatServer_Redis/cpp_redis/helpers/variadic_template.hpp:73-97 | The recursion holds exactly when the type occurs in the list |
| TypeLists.DifferentIffDistinct | ChatServer_Redis/cpp_redis/helpers/variadic_template.hpp:103-126 | The recursion holds exactly when the types are pairwise distinct |
| ClientKills.AcceptsFiltersIff | ChatServer_Redis/cpp_redis/impl/client.ipp:78-83 | A call compiles exactly when its types differ pairwise, only the last argument may be a callback and there is a filter |
| ClientKills.FilterRoundTrip | ChatServer_Redis/cpp_redis/impl/client.ipp:78-89 | The command of an accepted call reads back as its filters in order; a trailing callback adds nothing |
| ClientKills.AddressRoundTrips | ChatServer_Redis/cpp_redis/impl/client.ipp:91-107 | With host and port, the old single-address form arises exactly when the first argument after the port is the callback; else the address and the filters read back in order |
| ClientKills.IdsAreUint64 | ChatServer_Redis/cpp_redis/impl/client.ipp:51-56 | Ids up to 18446744073709551615 are written as they are, negative ones with 18446744073709551616 added, and read back so |
| ClientKills.FiltersSpelled | ChatServer_Redis/cpp_redis/impl/client.ipp:28-49 | The words of each TYPE and SKIPME filter |
| ClientKills.AddressesSpelled | ChatServer_Redis/cpp_redis/impl/client.ipp:91-107 | The words of the old form and of the form with ADDR |
| ClientKills.AddressRoundTrip | ChatServer_Redis/cpp_redis/impl/client.ipp:102 | host:port reads back as host and port, whatever colons the host holds |
| ClientKills.PairCounts | ChatServer_Redis/cpp_redis/impl/client.ipp:51-56 | At most one TYPE and one SKIPME pair, and one ID pair for each distinct integral type other than bool |
| ClientKills.TwoIdsAreAccepted | ChatServer_Redis/cpp_redis/impl/client.ipp:81 | An accepted call with two ID pairs, although the check is meant to leave one value for each filter |
| ClientKills.CallbackIsLast | ChatServer_Redis/cpp_redis/impl/client.ipp:58-76 | The callback passed on is the last argument if that is one, otherwise none |
| ClientKills.KillCommand.UnpackArg | ChatServer_Redis/cpp_redis/impl/client.ipp:28-62 | Appends the two words of its argument, or assigns the callback |
| ClientKills.KillCommand.Unpack | ChatServer_Redis/cpp_redis/impl/client.ipp:64-76 | The recursion appends the words of all arguments in order and keeps the last callback |
| ClientKills.KillCommand.ForFilters | ChatServer_Redis/cpp_redis/impl/client.ipp:78-89 | Builds the filter command in place |
| ClientKills.KillCommand.ForAddress | ChatServer_Redis/cpp_redis/impl/client.ipp:91-107 | Builds the address command, with ADDR unless the first argument is a callback |
| ClientKills.KillCommand.ForAddressOnly | ChatServer_Redis/cpp_redis/impl/client.ipp:109-112 | Without further arguments: the old form with an empty callback |
| Messages.InsertAllAppends | ChatServer_Redis/cpp_redis/impl/types.hpp:109-121 | Pushing pairs appends to each field exactly its values, in order, and changes no other field |
| Messages.FlattenedPairs | ChatServer_Redis/cpp_redis/impl/types.hpp:123-137 | Reading alternating fields and values undoes flattening |
| Messages.PairsAt | ChatServer_Redis/cpp_redis/impl/types.hpp:123-137 | The k-th pair meant is the row at 2k as field with the row behind it as value |
| Messages.WrittenMeetsIntentIff | ChatServer_Redis/cpp_redis/impl/types.hpp:123-137 | Leaving the map alone is what the rows ask for exactly when they hold fewer than two |
| Messages.Message.PushRange | ChatServer_Redis/cpp_redis/impl/types.hpp:123-137 | The loop as written leaves the map unchanged for every input |
| Messages.Message.PushRangeIntended | ChatServer_Redis/cpp_redis/impl/types.hpp:123-137 | The loop it is meant to be inserts exactly the pairs, in order |
| Messages.Message.PushPairs | ChatServer_Redis/cpp_redis/impl/types.hpp:115-121 | Inserts all pairs in order |
| Messages.Message.Push | ChatServer_Redis/cpp_redis/impl/types.hpp:109-113 | Inserts one pair |
| Messages.Message.SetId | ChatServer_Redis/cpp_redis/impl/types.hpp:94-98 | Sets the id and leaves the fields alone |
| Messages.Message.Find | ChatServer_Redis/cpp_redis/impl/types.hpp:100-107 | Finds a value of the field exactly when there is one |
| Sectors.SectorAround.GetSectorAround | ChatServer_Redis/Sector.h:34 | The two loops around the place fill the array with the specified visit (body in Sector.cpp, lines 19-83) |
| Sectors.LaneInGrid | ChatServer_Redis/Sector.h:34 | The 16-bit wrap-around of the additions never lets a cell through that is not a neighbour (body in Sector.cpp, lines 30-56) |
| Sectors.VisitedExactly | ChatServer_Redis/Sector.h:34 | For every place, also off the grid, the visited cells are the place and its neighbours on the grid (body in Sector.cpp, lines 19-83) |
| Sectors.VisitedIsScan | ChatServer_Redis/Sector.h:34 | From a place on the grid the visit equals a scan of all 2500 cells for those within one in each axis, in the same order (body in Sector.cpp, lines 19-83) |
| Sectors.VisitedOnce | ChatServer_Redis/Sector.h:34 | No list is visited twice, whatever place the visit starts from (body in Sector.cpp, lines 58-82) |
| Sectors.OwnListIff | ChatServer_Redis/Sector.h:41-44 | A place the validity test admits has a list of its own exactly when both coordinates are below 50; it has a list at all exactly when y < 50 and not x = 50 at y = 49 |
| ChatServer.SectorArray.constructor | ChatServer_Redis/Sector.h:18-32 | The nested loops make every list empty |
| ChatServer.ChatContents.RegisterClientAtSector | ChatServer_Redis/Sector.h:36 | Appends the player to the list the row-major index selects (body in Sector.cpp, lines 85-88) |
| ChatServer.ChatContents.RemoveClientAtSector | ChatServer_Redis/Sector.h:37 | Removes the player from that list (body in Sector.cpp, lines 90-93) |
| ChatServer.ChatContents.SendPacketAround | ChatServer_Redis/Sector.h:35 | The two loops enqueue the packet to the players of the visited lists, list by list (body in Sector.cpp, lines 95-107) |
| ChatProofs.EveryRun | ChatServer_Redis/ChatContents.h:7-21 | Over any run of joins, leaves and packets: the roster has no repeats and the right count, each registered player stands once in the list of its recorded sector and nowhere else, the login map points to present players of that account, and the known monitoring client is present (body in ChatContents.cpp, lines 18-212) |
| ChatProofs.LeaveDefinedIff | ChatServer_Redis/ChatContents.h:12 | Leaving is defined exactly when the account still has an entry (body in ChatContents.cpp, lines 61-76) |
| ChatProofs.MoveDefinedIff | ChatServer_Redis/ChatContents.h:15 | A move completes exactly when it is refused or its sector has a list (body in ChatContents.cpp, lines 153-188) |
| ChatResults.MessageDefinedIff | ChatServer_Redis/ChatContents.h:16 | A chat request completes exactly when it is refused or the recorded sector of the sender has a list (body in ChatContents.cpp, lines 190-212) |
| ChatResults.MessageReaches | ChatServer_Redis/ChatContents.h:16 | An accepted message is enqueued once for every player whose list is visited and for no other (body in ChatContents.cpp, lines 190-212) |
| Sectors.ReachesExactly | ChatServer_Redis/Sector.h:34-35 | A visit from any place with a list reaches another place exactly when both select the same list or the grid cell of that list is next to the first place (body in Sector.cpp, lines 19-107) |
| Sectors.SenderFaithfulIff | ChatServer_Redis/Sector.h:34-44 | A sender reaches exactly the grid cells within one in each axis if and only if it stands on the grid |
| Sectors.ReceiverFaithfulIff | ChatServer_Redis/Sector.h:34-44 | A receiver is reached from the grid exactly by the cells within one in each axis if and only if it stands on the grid |
| Sectors.PairFaithfulIff | ChatServer_Redis/Sector.h:34-44 | For one sender and one admitted receiver, the exact coordinates for which reaching is being near |
| ChatResults.EarshotExactly | ChatServer_Redis/Sector.h:35 | In every reachable state and for every sender with a list: the players reached are those registered in the same list or in the list of a grid cell next to the sender (body in Sector.cpp, lines 95-107) |
| ChatResults.EarshotIsNearnessIff | ChatServer_Redis/Sector.h:35 | In every reachable state: being reached is being registered within one sector in each axis exactly for the undistorted pairs of coordinates (body in Sector.cpp, lines 95-107) |
| ChatResults.EarshotIsNearness | ChatServer_Redis/Sector.h:35 | Between players on the grid, being reached is being registered within one sector in each axis (body in Sector.cpp, lines 95-107) |
| ChatResults.EdgeIsHeardFarAway | ChatServer_Redis/Sector.h:41-44 | The admitted coordinate 50 breaks this: such a player is reached from 50 sectors away |
| ChatResults.EdgeReachesFarAway | ChatServer_Redis/Sector.h:41-44 | A sender at coordinate 50 reaches a player 50 sectors away |
| ChatResults.EdgeIsMissedNearby | ChatServer_Redis/Sector.h:41-44 | A sender at coordinate 49 does not reach its neighbour at coordinate 50 |
| ChatRuns.SeatAll | ChatServer_Redis/ChatContents.h:15 | Any number of players can stand at any admitted places that have lists: a run leads there (body in ChatContents.cpp, lines 153-188) |
| ChatRuns.EveryPairMeets | ChatServer_Redis/Sector.h:34-44 | For any two such places a run puts a sender at one and a receiver at the other, and there reaching is being near exactly if the pair is undistorted |
| ChatRuns.ChatBeforeMoveIff | ChatServer_Redis/ChatContents.h:16 | A join and then a chat request: undefined exactly when what the never set sector fields hold selects no list (body in ChatContents.cpp, lines 190-212) |
| ChatRuns.MoveLeavesBlockIff | ChatServer_Redis/ChatContents.h:15 | A join and then a move: undefined exactly at the admitted places without a list (body in ChatContents.cpp, lines 153-188) |
| ChatRuns.MonitorLeavesBadly | ChatServer_Redis/ChatContents.h:12 | A monitoring client that joins and leaves: undefined (body in ChatContents.cpp, lines 47-70) |
| ChatRuns.CrowdStopsServerIff | ChatServer_Redis/ChatContents.h:17 | A run seats n players in one sector; a size request then stops the server exactly if n modulo 256 is 128 or more (body in ChatContents.cpp, lines 229-243) |
| ChatRequests.MoveRefusedIff | ChatServer_Redis/ChatContents.h:15 | In every reachable state, on bytes: a move is answered by disconnecting its sender and nothing else exactly if it names another account or a coordinate above 50 (body in ChatContents.cpp, lines 153-172) |
| ChatRequests.MoveFaultIff | ChatServer_Redis/ChatContents.h:15 | Any other move stops the program exactly if 50*y + x is 2500 or more (body in ChatContents.cpp, lines 174-183) |
| ChatRequests.MoveDone | ChatServer_Redis/ChatContents.h:15 | Any other move is recorded, answered, takes the player off its list and puts it at the end of the list of its new place; nothing else changes (body in ChatContents.cpp, lines 174-187) |
| ChatRequests.ChatRefusedIff | ChatServer_Redis/ChatContents.h:16 | A chat request is answered by disconnecting its sender and nothing else exactly if it names another account (body in ChatContents.cpp, lines 190-201) |
| ChatRequests.ChatFaultIff | ChatServer_Redis/ChatContents.h:16 | Any other chat request stops the program exactly if the recorded place of the sender has no list (body in ChatContents.cpp, lines 203-211) |
| ChatRequests.ChatDone | ChatServer_Redis/ChatContents.h:16 | Any other chat request is sent under the names of the sender once to each player in earshot and to nobody else; nothing else changes (body in ChatContents.cpp, lines 203-211) |
| ChatRequests.ChatInOrder | ChatServer_Redis/Sector.h:35 | The sends come in the order of a scan of all 2500 lists for the own list and those of the cells next to it (body in Sector.cpp, lines 95-107) |
| ChatRequests.StrangersRefused | ChatServer_Redis/ChatContents.h:15-16 | In any state, a sender who is not logged in is refused either request (body in ChatContents.cpp, lines 153-201) |
| ChatRequests.StrangersLeave | ChatServer_Redis/ChatContents.h:12 | In any state, a player who is not logged in leaves the roster only (body in ChatContents.cpp, lines 61-63) |
| ChatRequests.HeartbeatDone | ChatServer_Redis/ChatContents.h:13 | A heartbeat does nothing, whatever follows its code (body in ChatContents.cpp, lines 117-118) |
| ChatRequests.SizesDone | ChatServer_Redis/ChatContents.h:13 | A size request is answered to its sender alone with the 2500 sizes modulo 256, or stops the program exactly if one of these is 128 or more (body in ChatContents.cpp, lines 124-126) |
| ChatRequests.OthersRefused | ChatServer_Redis/ChatContents.h:13 | Whatever is none of the four requests, monitoring logins and unknown codes included, disconnects the sender and does nothing else (body in ChatContents.cpp, lines 120-146) |
| ChatRequests.JoinSays | ChatServer_Redis/ChatContents.h:11 | In every reachable state, everything a join sends and to whom, in order (body in ChatContents.cpp, lines 18-45) |
| ChatRequests.LeaveSaysNothing | ChatServer_Redis/ChatContents.h:12 | Leaving sends nothing, lowers the count by one, and forgets the monitoring client exactly if it is the one leaving (body in ChatContents.cpp, lines 47-77) |
| ChatResults.OneCurrentPlayer | ChatServer_Redis/ChatContents.h:11 | Of two players on one account, one has been told to disconnect (body in ChatContents.cpp, lines 31-42) |
| ChatResults.OneMonitor | ChatServer_Redis/Player.h:14-15 | Of two monitoring clients, one has been told to disconnect (login in LoginContents.cpp, lines 45-55) |
| ChatResults.OnlyKickedLeaveBadly | ChatServer_Redis/ChatContents.h:12 | Leaving is undefined only for a monitoring client or a player told to disconnect (body in ChatContents.cpp, lines 65-70) |
| ChatRuns.KickedLeavesLast | ChatServer_Redis/ChatContents.h:12 | A run where it happens: the second player of an account leaves before the first one it replaced (body in ChatContents.cpp, lines 65-70) |
| ChatResults.ListsHoldEveryone | ChatServer_Redis/Sector.h:36-37 | The lists together hold each registered player once (body in Sector.cpp, lines 85-93) |
| ChatResults.SizesExact | ChatServer_Redis/ChatContents.h:17 | The sizes packet can be built exactly when no size byte is 128 or more; byte by byte it holds the sizes of the lists modulo 256 (body in ChatContents.cpp, lines 229-243) |
| ChatResults.SizesAddUp | ChatServer_Redis/ChatContents.h:17 | The sizes sent add up to the registered players exactly when no list has 128 players or more (body in ChatContents.cpp, lines 229-243) |
| ChatServer.ChatContents.OnEnter | ChatServer_Redis/ChatContents.h:11 | Adds the player, ends its login timeout, disconnects and forgets an earlier player on the account, answers the login (body in ChatContents.cpp, lines 18-45) |
| ChatServer.ChatContents.MonitorClientLogin | ChatServer_Redis/Player.h:14-15 | The known monitoring client is disconnected and replaced (body in LoginContents.cpp, lines 45-55) |
| ChatServer.ChatContents.OnLeave | ChatServer_Redis/ChatContents.h:12 | Forgets the monitoring client if it is the one leaving, removes the player from the roster, from its account entry if it is the current one, and from its sector (body in ChatContents.cpp, lines 47-77) |
| ChatServer.ChatContents.ReqSectorMove | ChatServer_Redis/ChatContents.h:15 | Refuses, or moves the player from the list of the recorded sector to the new one and records it (body in ChatContents.cpp, lines 153-188) |
| ChatServer.ChatContents.ReqMessage | ChatServer_Redis/ChatContents.h:16 | Refuses, or sends the message around the recorded sector (body in ChatContents.cpp, lines 190-212) |
| ChatServer.ChatContents.ReqSectorInfo | ChatServer_Redis/ChatContents.h:17 | Sends one size byte for each list, row by row (body in ChatContents.cpp, lines 229-243) |
| ChatServer.ChatContents.OnRecv | ChatServer_Redis/ChatContents.h:13 | Dispatches on the type code; short or overlong packets and unknown codes disconnect (body in ChatContents.cpp, lines 80-147) |
| Packets.DecodeExact | ChatServer_Redis/SCCContents.cpp:6-23 | A reply is read from the front of a buffer leaving rest if and only if the buffer is its layout followed by rest |
| ChatRequests.WordLayout | ChatServer_Redis/SCCContents.cpp:6-23 | A word is two bytes, the low one first |
| ChatRequests.AccountLayout | ChatServer_Redis/SCCContents.cpp:6-18 | An account is eight bytes, the lowest first, in two's complement |
| ChatRequests.ReplyLayouts | ChatServer_Redis/SCCContents.cpp:6-23 | The fields of each reply in order; names take forty bytes each |
| Packets.StreamRoundTrip | ChatServer_Redis/SCCContents.cpp:6-23 | Any concatenation of login, move and message replies is read back as that list |
| Packets.StreamSound | ChatServer_Redis/SCCContents.cpp:6-23 | A buffer read to its end is the concatenation of what was read, so no buffer stands for two lists |
| Packets.MoveRequestExact | ChatServer_Redis/ChatContents.h:13 | A move request is understood from exactly one byte string (body in ChatContents.cpp, lines 89-102) |
| Packets.MessageRequestExact | ChatServer_Redis/ChatContents.h:13 | A chat request is understood exactly when its length field counts its remaining bytes (body in ChatContents.cpp, lines 103-116) |
| Packets.PacketBuffer.MakeResLogin | ChatServer_Redis/SCCContents.cpp:6-9 | Appends code, status and account |
| Packets.PacketBuffer.MakeResSectorMove | ChatServer_Redis/SCCContents.cpp:11-14 | Appends code, account and the two coordinates |
| Packets.PacketBuffer.MakeResMessage | ChatServer_Redis/SCCContents.cpp:16-23 | Appends code, account, the fixed-width names, the length in bytes and that many bytes |

## Left out

- The thin command declarations of the client and the wrappers of sentinel, subscriber and consumer: they forward argument lists.
- Sockets, select, the self pipe, connecting and real time: nondeterministic steps (bytes move in any pieces, connections break, attempts fail) or not modelled; timeouts of sync_commit included.
- Mutexes and condition variables as such: a locked region is one step.
- Replies the server sends without a request (subscriptions), and a server that answers out of order.
- Sentinel lookup, connect callbacks, unlimited reconnection attempts and disconnecting on the user's demand.
- The choice of which sockets to poll: a round of the poll takes any list of sockets.
- Destructors, joining of threads and the delay before a spawned worker starts.
- ThreadPools.StopCompletes: says that the workers leave in a bounded number of their own steps, not that the scheduler lets them take those steps; likewise PipelineProgress.NeverStuck says that a continuation exists, and PipelineProgress.EveryServingRunSettles that every run that goes on gets there, not that server and network go on.
- IoServices.UntrackCompletes: likewise needs the callbacks to return and the poll to wake up.
- Clients.RedisClient.Connect: does not model an attempt that fails, which leaves the client as it was, nor the connect callback.
- Clients.RedisClient.Reconnect: does not authenticate, select a database or subscribe again before the pending commands are resent, because the order of those commands among the pending ones is in a body that is missing.
- Commands.FramingExact: its condition bounds argument lengths by 2^31-1 and their number by 2^63-1, the widths the builders declare; encodings beyond that are not covered by any builder. `Commands.CommandUnique` and `Commands.FramingUnique` have no such bound.
- The abstract builder class: a datatype of handles to the five builder classes stands for the base class; update in place and ownership are kept.
- The reply class: a value; its setters and its row operator are constructing a value and appending to a sequence.
- Strings are sequences of characters; no allocation fails.
- The overloads of client_kill for character pointers and futures, and argument types no overload accepts.
- Messages.Message.Find: gives the first value inserted for the field, where the multimap may give any; `get_str_values` is not modelled because the output operator for replies has no body here.
- Reading an array or an integer as a field name: the body of `as_string` is missing, so pushing such a row is an error of the model.
- The linked list, the packet class, the protocol header and the game server are not part of this model: a list is a sequence with append and removal of the first occurrence, the type codes are parameters, sending and enqueueing are one effect.
- The login content (session keys in Redis, the capacity check), counters of updates and `GetSectorMonitoringInfo`, which puts the same sizes as the sizes packet without its stop.
- Player objects are slots of a map; sector coordinates of a player never moved are arbitrary words, and session ids are unique among present players and never reused after a disconnect request. A monitoring client passes from the login content to the chat content in one step.
