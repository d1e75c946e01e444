# A verified model of the telemetry server

The server takes messages from GPS trackers, parses them into trees, and hands the trees to
dispatchers. This project models its hardest parts in Dafny and proves what they promise, or
exactly when they keep the promise.

| module | what it is about |
|---|---|
| `Resp`, `ReplyReader`, `RedisReplies`, `RedisPipeline`, `RedisStale`, `RedisConnection` | the pipelined Redis connection: bytes sent, replies cut into lines, the replies a server writes, every interleaving of publishers, completions, errors and reconnects, what failed writes leave behind, and the connection object |
| `WialonTokens`, `WialonParser`, `WialonReference`, `WialonBlackbox`, `WialonProtocol`, `WialonPlugin` | the Wialon IPS translator: tokeniser, state machine, a specification without the machine, multi-block messages, the protocol in its own words, and the translator object |
| `JsonTree`, `JsonWriter`, `JsonReader`, `JsonRoundTrip`, `JsonCompact`, `JsonLayout` | the typed tree and its JSON writer, an independent reader for sections 2 to 7 of RFC 8259, the round trip, pretty against compact, the layout of pretty text |
| `Combiner`, `RouteTable` | the request router: the join of several targets, and the route table built with a cached iterator |
| `PortIndex` | the translator manager's port index |
| `Delivery` | parser, writer and pipeline put together |
| `Decimal`, `Sequences`, `Wrappers` | decimal text, concatenation, `Option` |

Objects whose methods update fields are classes (`RedisConnection.Connection`,
`WialonPlugin.Plugin`, `RouteTable.Table`, `PortIndex.Manager`, `Combiner.Shared`,
`JsonWriter.OutStream`). Each method is proved to do what a function of the old state says, and the
lemmas are about those functions. Strings are sequences of `char`, one for each byte.

## How the connection is modelled

A step of `RedisPipeline` is what happens under one lock or between two looks at shared state. A
publisher is delayed freely between its look at `is_connected_` and its lock, and again between its
push and its `try_lock`; an error handler is interrupted between `close`, every callback of `drop`, the
unlock and the connect that follows it. `handle_connect` is one step, and so is everything `handle_read`
does up to its lock. Outstanding writes and reads, running handlers and connects under way are counted,
so that it is a theorem, and not a choice of the model, that there is at most one operation at a time.
Ghost sequences record which callbacks were accepted and which were called. The methods of
`RedisConnection.Connection` are the same steps, taken without an interruption. The timers act through
the steps `Connect` (a retry) and `Check`, `Push`, `TryWrite` (a ping). The theorems about runs start
from any state with the invariants they name; the `Start` lemmas show that a new connection is one.

## What the proofs found

* Order and ownership hold in every run: accepted callbacks are called in order and at most once,
  none is lost, and one operation is outstanding or handled if the mutex is held, none if it is free
  (`RedisPipeline.RunKeepsInv`, `RedisPipeline.AnsweredInOrder`).
* A connect that completes between `close` and the unlock in `drop` finds the mutex held and sends
  nothing; requests queued meanwhile are left behind by the unlock. They are sent by the connect that
  follows the unlock, if it completes (`RedisPipeline.ConnectAttends`), so no wakeup is lost in a run in
  which no connect gives up (`RedisPipeline.NoLostWakeup`). If the last one gives up, the requests wait
  until somebody publishes (a ping does) or connects again (`RedisPipeline.AttendedIff`,
  `RedisPipeline.StrandedUntil`, `RedisPipeline.LostWakeupExample`). When no connect completes in that
  window, nothing is left behind at all (`RedisPipeline.AwakeThroughout`).
* The assertions after the buffer swap can fail, in one case only: `handle_connect` has taken a
  publisher's request away between its push and its `try_lock` and has failed with it
  (`RedisPipeline.SwapAssertsIff`, `RedisPipeline.EmptySwapExample`). With no connect in that window
  they hold throughout (`RedisPipeline.SwapAssertsThroughout`).
* A read that ends between the CR and the LF of an answer, with four bytes or more left over, answers
  too many callbacks: `getline` at the end of its input leaves the line as it was
  (`ReplyReader.AnswersTooManyIff`, `ReplyReader.AnswersTooManyExample`).
* `consume` is asked for more than the buffer holds whenever a read gets that far with a callback
  waiting and four bytes or more behind its answers, be it at an unfinished line or at a complete one
  without its CR; `left` then still counts a line that has left the stream, or has wrapped around
  (`ReplyReader.ConsumesNothingIffClean`, `ReplyReader.OverrunExample`).
* A reply that is neither an integer nor `+PONG` closes the connection, and what has arrived behind it
  stays in the input buffer, where the next batch takes it for its own (`RedisReplies.UnknownReplyLeavesRest`).
* A failed write leaves its unsent bytes, which may be all of them, in the buffer that becomes the open
  one (`RedisPipeline.SyncedIffWholeWrites`). The buffers go on holding whole requests exactly while every
  failed write has sent a whole number of them (`RedisStale.WholeIffStopsBetween`); the left-over ones are
  then sent later although their callbacks have heard false (`RedisStale.BatchDecodesBehindStale`).
* Lengths are printed as 32-bit numbers; from 2^32 bytes on a request cannot be read back
  (`Resp.PipelineDecodesUniquely`).
* A blackbox block of sixteen fields or more keeps its tree for the blocks behind it, because a bar
  that ends a full block resets neither the countdown nor the tree (`WialonBlackbox.TreesRightIff`).
* The answer to a late result carries the command in hand when it arrives, and does not fit the answer
  buffer if that is a long unknown one (`WialonParser.SessionOverrunsIff`,
  `WialonParser.LateResultExample`).
* An 8-bit integer leaf is printed as the character with that code
  (`JsonRoundTrip.RoundTripIff`, `JsonCompact.PrettyIsCompactIff`).
* `map_port` compares a uid with the first entry of its port only, while a connection uses the last
  one; a uid that was mapped over cannot be mapped again (`PortIndex.RemapExample`).

## Model

| member | source | states |
|---|---|---|
| Decimal.ValueOfPrint | plugins/dispatcher_redis/redis_connection.cpp:176 | the decimal text of a number reads back as that number |
| Decimal.DigitCount | plugins/dispatcher_redis/redis_connection.cpp:159-163 | a number has at most k digits exactly when it is below 10^k |
| Resp.ReadWrittenBulk | plugins/dispatcher_redis/redis_connection.cpp:172-178 | a bulk string below 2^32 bytes reads back in front of any text; a longer one never does, as its length is narrowed |
| Resp.ReadWrittenPublish | plugins/dispatcher_redis/redis_connection.cpp:148-186 | a written PUBLISH is read back with the same channel and message if both lengths fit 32 bits, and as something else or not at all if not |
| Resp.ReadWrittenPing | plugins/dispatcher_redis/redis_connection.cpp:198-204 | a written PING is read back as one, whatever follows |
| Resp.PipelineDecodesUniquely | plugins/dispatcher_redis/redis_connection.cpp:148-209 | the concatenated bytes of any requests decode to exactly those requests if and only if every length fits 32 bits |
| Resp.FitsReservation | plugins/dispatcher_redis/redis_connection.cpp:157-181 | the generated text never exceeds the reserved buffer, whatever the lengths |
| Resp.ReservationIsNeeded | plugins/dispatcher_redis/redis_connection.cpp:157-163 | with lengths of ten digits the generated text fills the reserved buffer to the last byte |
| ReplyReader.Turn | plugins/dispatcher_redis/redis_connection.cpp:257-276 | one turn of the reply loop: after it the loop stands one answer further on its way to the same outcome, or that outcome is reached |
| ReplyReader.RunExplained | plugins/dispatcher_redis/redis_connection.cpp:252-288 | for every buffer and every number of waiting callbacks: how many are answered, how the loop ends, what is left in the stream and what `left` is |
| ReplyReader.ReadIsExactIffClean | plugins/dispatcher_redis/redis_connection.cpp:252-282 | just the complete answers at the front are answered if and only if nothing waits any more or fewer than four bytes are left behind them; exactly those bytes are then kept |
| ReplyReader.AnswersTooManyIff | plugins/dispatcher_redis/redis_connection.cpp:257-276 | more callbacks are answered than answers have arrived exactly when the bytes end between the CR and the LF of an answer; all that wait are answered then |
| ReplyReader.ConsumesNothingIffClean | plugins/dispatcher_redis/redis_connection.cpp:252-282 | when the loop ends by its count or its break, `left` is what remains and `consume` removes nothing if and only if the read ends well; otherwise it is asked for more than there is |
| ReplyReader.AnswersTooManyExample | plugins/dispatcher_redis/redis_connection.cpp:257-276 | two waiting callbacks are answered by the four bytes of one unfinished line |
| ReplyReader.OverrunExample | plugins/dispatcher_redis/redis_connection.cpp:257-282 | a complete line without CR makes `consume` overrun |
| ReplyReader.CutIndependence | plugins/dispatcher_redis/redis_connection.cpp:241-288 | however the stream is cut, if no read stops with a callback waiting and four bytes or more behind its answers, the callbacks answered and the bytes kept are those of one read of the whole |
| ReplyReader.AnswersCutAnywhere | plugins/dispatcher_redis/redis_connection.cpp:241-288 | a stream of CRLF lines that are all answers may be cut anywhere but four bytes or more into a line, with the same outcome as one read of the whole |
| ReplyReader.WellFormedUnclean | plugins/dispatcher_redis/redis_connection.cpp:257-267 | if all complete lines are answers, only an unfinished line of four bytes or more with a callback still waiting spoils a read |
| RedisReplies.RepliesAreAnswers | plugins/dispatcher_redis/redis_connection.cpp:252-282 | any integer and PONG replies, as a server writes them, each call one waiting callback with true and are used up; of those nobody waits for every byte is kept |
| RedisReplies.CutRepliesAreAnswers | plugins/dispatcher_redis/redis_connection.cpp:241-288 | the same when they arrive in pieces cut anywhere but four bytes or more into a reply |
| RedisReplies.FirstLineDecides | plugins/dispatcher_redis/redis_connection.cpp:257-275 | what the first line does, by its text: `:` and `+PONG` are answers, any other line with CR is not handled, one without CR ends the loop, an empty one throws |
| RedisReplies.ThreeBytesWait | plugins/dispatcher_redis/redis_connection.cpp:257 | fewer than four bytes are left alone |
| RedisReplies.UnknownReplyLeavesRest | plugins/dispatcher_redis/redis_connection.cpp:265-271 | after a reply that is not handled nobody hears true, the connection fails, and what has arrived behind the reply stays in the buffer |
| RedisPipeline.RunKeepsInv | plugins/dispatcher_redis/redis_connection.cpp:124-339 | in every run fired callbacks, those in flight and those queued are the accepted ones in order; outstanding writes and reads and running handlers are one in number when the busy mutex is held and none when it is free; the in-flight queue is empty then; unsent bytes of open requests stand behind any stale ones |
| RedisPipeline.AnsweredInOrder | plugins/dispatcher_redis/redis_connection.cpp:148-319 | callbacks are called in order of acceptance, at most once; none is lost by a swap or a drop |
| RedisPipeline.NobodyForgotten | plugins/dispatcher_redis/redis_connection.cpp:148-209 | in every run each callback handed in is refused at once, on its way to the lock, or accepted, and just one of the three |
| RedisPipeline.NoLostWakeup | plugins/dispatcher_redis/redis_connection.cpp:124-339 | in every run in which no connect gives up, a live connection with queued requests has the mutex held, a publisher about to try it, or a connect under way or about to start |
| RedisPipeline.AttendedIff | plugins/dispatcher_redis/redis_connection.cpp:124-339 | in any run this holds throughout if and only if no last connect gives up on a live connection with requests queued, the mutex free and no publisher inside |
| RedisPipeline.ConnectAttends | plugins/dispatcher_redis/redis_connection.cpp:132-137 | the connect under way, when it completes, takes the mutex and sends the whole queue |
| RedisPipeline.StrandedUntil | plugins/dispatcher_redis/redis_connection.cpp:124-339 | once that has failed nothing is sent or answered in any run until somebody publishes, connects or closes |
| RedisPipeline.AwakeThroughout | plugins/dispatcher_redis/redis_connection.cpp:124-215 | when no connect completes between `close` and the unlock in `drop`, a live connection with queued requests always has the mutex held or a publisher about to try it, whatever becomes of connects |
| RedisPipeline.SwapAssertsIff | plugins/dispatcher_redis/redis_connection.cpp:211-225 | the two assertions after a swap hold in every state except for a publisher that finds its request taken away; the new open queue has no callbacks |
| RedisPipeline.SwapAssertsThroughout | plugins/dispatcher_redis/redis_connection.cpp:211-225 | when no connect completes inside a publisher's section, the assertions hold at every swap of a run |
| RedisPipeline.ClosedAcceptsNothingNew | plugins/dispatcher_redis/redis_connection.cpp:148-155 | from a close to the next completed connect, only requests of publishers that had already looked are accepted, each once |
| RedisPipeline.LostWakeupExample | plugins/dispatcher_redis/redis_connection.cpp:307-339 | a run from the start to a live, idle connection with a request queued and no connect under way |
| RedisPipeline.EmptySwapExample | plugins/dispatcher_redis/redis_connection.cpp:211-221 | a run from the start to a swap of an empty queue |
| RedisPipeline.SyncedIffWholeWrites | plugins/dispatcher_redis/redis_connection.cpp:148-239 | throughout a run the unsent bytes are exactly the encodings of the requests they belong to, if and only if no failed write leaves bytes unsent |
| RedisPipeline.BatchDecodes | plugins/dispatcher_redis/redis_connection.cpp:148-225 | then what is handed to the socket decodes to the requests whose callbacks are in flight, and the open queue to those that wait |
| RedisStale.WholeIffStopsBetween | plugins/dispatcher_redis/redis_connection.cpp:148-239 | throughout a run both buffers hold exactly whole requests, named left-over ones and then those of their callbacks, if and only if every failed write has sent a whole number of requests |
| RedisStale.RestIsWholeIff | plugins/dispatcher_redis/redis_connection.cpp:223-237 | the unsent bytes are the requests not touched if and only if the number of bytes sent is that of some first requests |
| RedisStale.StaleHeardFalse | plugins/dispatcher_redis/redis_connection.cpp:227-319 | in every run the left-over requests are, in order, ones whose callbacks have heard false, or are about to in the `drop` under way |
| RedisStale.BatchDecodesBehindStale | plugins/dispatcher_redis/redis_connection.cpp:148-319 | when failed writes stop between requests, the batch handed to the socket and the open queue decode to requests of which the last are those that wait, and the ones before are, in order, requests whose callbacks have already heard false |
| RedisStale.LooksWholeExample | plugins/dispatcher_redis/redis_connection.cpp:223-237 | unsent bytes may read as a request although the write stopped inside another one |
| RedisPipeline.RepliesMatchRequests | plugins/dispatcher_redis/redis_connection.cpp:248-297 | without failures the k-th accepted callback is called with true because of the k-th line received, and the input buffer holds the rest |
| RedisConnection.ReconnectIsRun | plugins/dispatcher_redis/redis_connection.cpp:307-339 | reconnecting is a run of close, single drops, unlock and a new connect |
| RedisConnection.ReadIsRun | plugins/dispatcher_redis/redis_connection.cpp:248-305 | a handled read is a run: the chunk, then the look at the queue or the reconnect |
| RedisConnection.SendIsRun | plugins/dispatcher_redis/redis_connection.cpp:148-209 | a publish or ping is a run of look, push and try, or a refusal |
| RedisConnection.Connection.constructor | plugins/dispatcher_redis/redis_connection.hpp:84-94 | two distinct empty queues, not connected, mutex free |
| RedisConnection.Connection.Write | plugins/dispatcher_redis/redis_connection.cpp:211-225 | the two queue objects change roles exactly if the mutex was free or already held by the caller |
| RedisConnection.Connection.Send | plugins/dispatcher_redis/redis_connection.cpp:148-209 | refused at once when not connected; else bytes and callback are appended and a batch sent if nobody is at work |
| RedisConnection.Connection.HandleConnect | plugins/dispatcher_redis/redis_connection.cpp:124-137 | the connection is live, and queued requests are sent if nobody is at work |
| RedisConnection.Connection.HandleWrite | plugins/dispatcher_redis/redis_connection.cpp:227-239 | a read follows, or the batch is dropped and the connection closed and connected anew |
| RedisConnection.Connection.HandleRead | plugins/dispatcher_redis/redis_connection.cpp:248-305 | the answers in the buffer are given, the rest is kept, and it reads on, sends the next batch, unlocks or reconnects |
| RedisConnection.Connection.AnswerLoop | plugins/dispatcher_redis/redis_connection.cpp:252-276 | the loop calls exactly the callbacks the specification of the loop says, in order, and leaves the others |
| RedisConnection.Connection.Drop | plugins/dispatcher_redis/redis_connection.cpp:307-319 | every callback of the batch is called with false, in order, and the mutex is free |
| RedisConnection.Connection.Reconnect | plugins/dispatcher_redis/redis_connection.cpp:333-339 | closed, every callback of the batch called with false, mutex free, a connect under way, invariant kept |
| WialonTokens.TextOfTokens | plugins/translator_wialon/wialon_plugin.cpp:155-167 | the text can be put together again from its tokens, for every message |
| WialonTokens.PiecesOfFields | plugins/translator_wialon/wialon_plugin.cpp:155-167 | fields joined by semicolons are cut into exactly those fields, before a bar or at the end |
| WialonTokens.PiecesOfBlocks | plugins/translator_wialon/wialon_plugin.cpp:155-167 | joined blocks are cut into their fields with a bar token between two blocks |
| WialonTokens.TokensOfMessage | plugins/translator_wialon/wialon_plugin.cpp:155-167 | `#cmd#body` is cut into an empty token, the two hash signs around the command, and the tokens of the body |
| WialonParser.CountdownWalksProtocol | plugins/translator_wialon/wialon_plugin.cpp:59-85 | counting down through the reversed table visits the protocol's fields first to last |
| WialonParser.CommitFits | plugins/translator_wialon/wialon_plugin.cpp:330-397 | every answer of a commit fits the 32-byte buffer, for any 64-bit counter |
| WialonParser.TokensAlwaysFit | plugins/translator_wialon/wialon_plugin.cpp:169-397 | no token of any message leads to an answer that does not fit |
| WialonParser.ResultFitsIff | plugins/translator_wialon/wialon_plugin.cpp:385-432 | the answer to a result does not fit exactly if the command in hand when it arrives and the answer are longer together than 27 characters |
| WialonParser.SessionOverrunsIff | plugins/translator_wialon/wialon_plugin.cpp:169-432 | a session of tokens and results in any order makes an answer too long for the buffer if and only if some result arrives when the command in hand and its answer are longer together than 27 characters |
| WialonParser.LateResultExample | plugins/translator_wialon/wialon_plugin.cpp:232-240 | a session from the start of a connection: a login, an unknown command of forty characters, and then the result of the login |
| WialonParser.SessionKeepsInv | plugins/translator_wialon/wialon_plugin.cpp:169-432 | in every session of tokens and results in any order: the command in hand is in the table, the countdown is within its fields, the tree holds exactly the fields counted down, no lookup fails, and without authentication nothing but a login is parsed |
| WialonParser.AuthenticationIsForGood | plugins/translator_wialon/wialon_plugin.cpp:399-412 | a session is authenticated exactly if it was or some authentication succeeded |
| WialonParser.NoDataBeforeAuthentication | plugins/translator_wialon/wialon_plugin.cpp:245-251 | without a successful authentication no tree is passed on, whatever happens |
| WialonReference.BodyByBody | plugins/translator_wialon/wialon_plugin.cpp:259-277 | after any body tokens the machine holds the tree of the first fields, the rest of the countdown, and the state their number calls for |
| WialonReference.MachineRefinesMeaning | plugins/translator_wialon/wialon_plugin.cpp:169-378 | on every token sequence of a command other than blackbox the machine asks for exactly what the sequence means by position, commits only well-addressed messages with no token too many, and is ready for the next message |
| WialonReference.CommitsIff | plugins/translator_wialon/wialon_plugin.cpp:169-315 | the end token makes one request if and only if the tokens are a token, `#`, a known and permitted command, `#` and at most as many body tokens as it takes; otherwise none |
| WialonReference.ParserInvertsPrinter | plugins/translator_wialon/wialon_plugin.cpp:48-378 | rendering a command with all its field values, tokenising and parsing gives the values back by name, without error, and asks for authentication with the two values, an empty answer or a store of the tree |
| WialonReference.AnswerIsRead | plugins/translator_wialon/wialon_plugin.cpp:385-397 | every answer that fits the buffer, cut like a message, says what was answered to which command; a longer one is not sent |
| WialonProtocol.DataMessage | plugins/translator_wialon/wialon_plugin.cpp:50-76 | `#D#` with sixteen values stores them under their sixteen names, written out |
| WialonProtocol.ShortDataMessage | plugins/translator_wialon/wialon_plugin.cpp:52-79 | `#SD#` with ten values stores them under their ten names |
| WialonProtocol.TextMessage | plugins/translator_wialon/wialon_plugin.cpp:54-83 | `#M#` with a text stores it as the message |
| WialonProtocol.LoginMessage | plugins/translator_wialon/wialon_plugin.cpp:337-348 | `#L#` asks for authentication with the identifier and the password |
| WialonProtocol.ShortLoginMessage | plugins/translator_wialon/wialon_plugin.cpp:171-177 | a login without its password is answered `#AL#0` |
| WialonProtocol.PingMessage | plugins/translator_wialon/wialon_plugin.cpp:355-357 | `#P#` is answered `#AP#` |
| WialonProtocol.ImageMessage | plugins/translator_wialon/wialon_plugin.cpp:367-373 | `#I#` with six values waits for the image, with the values under their names |
| WialonProtocol.BlackboxMessage | plugins/translator_wialon/wialon_plugin.cpp:363-365 | `#B#` with one block of sixteen values stores them under their names and is answered with the counter |
| WialonProtocol.NothingAsked | plugins/translator_wialon/wialon_plugin.cpp:232-251 | any other command, and before authentication any but a login, asks for nothing |
| WialonProtocol.DataResult | plugins/translator_wialon/wialon_plugin.cpp:420-427 | a data message is answered `#AD#1` if processed and `#AD#-1` if not |
| WialonProtocol.ShortDataResult | plugins/translator_wialon/wialon_plugin.cpp:420-427 | a short data message is answered `#ASD#1` or `#ASD#-1` |
| WialonProtocol.TextResult | plugins/translator_wialon/wialon_plugin.cpp:420-430 | a text message is answered `#AM#1` or `#AM#0` |
| WialonProtocol.LoginResult | plugins/translator_wialon/wialon_plugin.cpp:399-412 | a login is answered `#AL#1` and authenticated if accepted, and answered `#AL#01` if not |
| WialonProtocol.BlackboxResults | plugins/translator_wialon/wialon_plugin.cpp:416-419 | every result of a blackbox counts one modulo 2^64 and none is answered |
| WialonProtocol.ResultWithoutCommand | plugins/translator_wialon/wialon_plugin.cpp:214-218 | a result that arrives when the next message has begun is answered to no command |
| WialonProtocol.Exchange | plugins/translator_wialon/wialon_plugin.cpp:171-432 | a login, its acceptance, a data message and its result: the four requests and answers, written out |
| WialonBlackbox.BlockByBlock | plugins/translator_wialon/wialon_plugin.cpp:259-305 | the machine after any fields of a block, new or behind a full one |
| WialonBlackbox.EndAfterBlock | plugins/translator_wialon/wialon_plugin.cpp:171-211 | the end stores the tree of the last block exactly once and answers with the counter |
| WialonBlackbox.BlackboxStores | plugins/translator_wialon/wialon_plugin.cpp:169-383 | a message of N blocks of any lengths stores exactly N trees, in order |
| WialonBlackbox.PrintedBlackboxStores | plugins/translator_wialon/wialon_plugin.cpp:155-383 | the same from the text of the message |
| WialonBlackbox.TreesRightIff | plugins/translator_wialon/wialon_plugin.cpp:260-299 | every block is stored with its own first sixteen fields if and only if no block but the last reaches sixteen, repetitions of a full block aside |
| WialonPlugin.Plugin.constructor | plugins/translator_wialon/wialon_plugin.cpp:88-95 | not authenticated, between two messages |
| WialonPlugin.Plugin.Answer | plugins/translator_wialon/wialon_plugin.cpp:385-397 | the answer is sent from the 32-byte buffer with exactly its text if it fits |
| WialonPlugin.Plugin.StoreData | plugins/translator_wialon/wialon_plugin.cpp:380-383 | the tree object itself is passed on, and recorded as it is then |
| WialonPlugin.Plugin.CommitCommand | plugins/translator_wialon/wialon_plugin.cpp:330-378 | the request or answer of the command, per command |
| WialonPlugin.Plugin.ConsumeEnd | plugins/translator_wialon/wialon_plugin.cpp:171-211 | the end of a message in each state, with its fallthroughs |
| WialonPlugin.Plugin.ConsumeToken | plugins/translator_wialon/wialon_plugin.cpp:169-315 | one token does what the parser function says; the invariants hold, and trees already passed on are not changed |
| WialonPlugin.Plugin.ParseMessage | plugins/translator_wialon/wialon_plugin.cpp:140-167 | a message is fed token by token and closed with the end token; trees passed on stay as they were, and a message that is no blackbox command asks for exactly what it means |
| WialonPlugin.Plugin.HandleAuthenticate | plugins/translator_wialon/wialon_plugin.cpp:399-412 | success authenticates the session, and both results are answered |
| WialonPlugin.Plugin.HandleProcessData | plugins/translator_wialon/wialon_plugin.cpp:414-432 | the counter counts modulo 2^64 for a blackbox, other commands are answered by result |
| JsonWriter.WriteJsonHelper | include/dptree_json.hpp:40-93 | the recursion appends to the stream exactly the text of the node at its depth |
| JsonWriter.WriteChildren | include/dptree_json.hpp:60-88 | the iterator loop appends all children in order, with commas between them |
| JsonRoundTrip.ReadScalar | include/dptree_json.hpp:25-34 | a leaf that is no 8-bit integer reads back as itself, with space before it and anything behind that cannot continue a number |
| JsonRoundTrip.ReadEscaped | include/dptree_json.hpp:25-27 | an escaped string reads back as the string, for every string |
| JsonRoundTrip.ReadWritten | include/dptree_json.hpp:40-93 | a written node reads back as itself at every depth, pretty or compact |
| JsonRoundTrip.ReadIsFaithful | include/dptree_json.hpp:48-53 | the reader only builds trees with data in leaves and no 8-bit integers |
| JsonRoundTrip.RoundTripIff | include/dptree_json.hpp:40-93 | the text of a tree, pretty or compact, reads back as exactly that tree if and only if data sits in leaves only and none of it is an 8-bit integer |
| JsonRoundTrip.ByteLeafExample | include/dptree.hpp:51-62 | an 8-bit leaf comes back as a different value |
| JsonCompact.PrettyIsCompactIff | include/dptree_json.hpp:55-91 | pretty text without whitespace outside string literals is the compact text if and only if no 8-bit leaf is printed as whitespace or a quotation mark |
| JsonCompact.PrettyIsCompact | include/dptree_json.hpp:55-91 | the same equality for a node at any depth |
| JsonLayout.PrettyIsLaidOut | include/dptree_json.hpp:55-91 | pretty text is the compact text with a line feed and four spaces for each open bracket behind opening brackets and commas and before closing ones, a space behind colons, and literals untouched |
| JsonLayout.BracketRule | include/dptree_json.hpp:48-76 | the root is an object, and a node below it is an array exactly if all its keys are empty |
| JsonLayout.PlainLiteral | include/dptree_json.hpp:25-27 | text without control characters, quotation marks and backslashes is written as it is |
| JsonLayout.OneTextExample | include/dptree_json.hpp:40-93 | the compact and the pretty text of a tree with one text, in full |
| JsonCompact.SpaceLeafExample | include/dptree_json.hpp:29-34 | an 8-bit leaf printed as a space is taken for layout |
| Combiner.Shared.Combine | src/request_router.cpp:36-40 | the compare-exchange makes the result the conjunction |
| Combiner.Shared.Release | src/request_router.cpp:31-34 | the callback is called with the result exactly when the last reference goes |
| Combiner.Router.ProcessData | src/request_router.cpp:99-121 | one task per target in order, and a shared object in the state the dispatcher's steps lead to; a single target gets the user's callback; without targets the user is told false |
| Combiner.Router.Submit | src/request_router.cpp:160-186 | a connection without a route has its user told false, one with a route has its data passed to the targets |
| Combiner.JoinFiresOnce | src/request_router.cpp:99-121 | under every interleaving the user's callback is called exactly once, when every holder has released, with the conjunction of all results, and not before |
| Combiner.DispatchIsRun | src/request_router.cpp:107-113 | an uninterrupted dispatch is a run of posts and two releases, after which each target holds one reference |
| Combiner.NeverStuck | src/request_router.cpp:99-121 | before that some holder can always release or the loop go on |
| RouteTable.Table.AddRoute | src/request_router.cpp:139-150 | wherever the cached iterator stands, the outcome is that of a fresh lookup |
| RouteTable.Table.LoadSettings | src/request_router.cpp:123-158 | the table maps each listed pair to exactly the dispatchers that list it, in configuration order with multiplicity, and has no other key; a dispatcher that is not loaded ends the loading there |
| RouteTable.Table.Route | src/request_router.cpp:169-171 | exactly the dispatchers that list the port and translator, in configuration order with multiplicity, or none if nobody does |
| PortIndex.Manager.Add | src/translator_manager.cpp:14-23 | the first plugin of a uid stays |
| PortIndex.Manager.MapPort | src/translator_manager.cpp:43-79 | accepted exactly if the plugin is a loaded translator and not first on that port; the index stays sorted, and the uid goes behind the others of its port |
| PortIndex.Manager.ListPort | src/translator_manager.cpp:87-92 | exactly the entries of the port, in the order they were mapped |
| PortIndex.Manager.Choose | src/connection.cpp:57-63 | a new connection uses the last uid of its port |
| PortIndex.Manager.DoAll | src/translator_manager.cpp:14-79 | after any series of plugins loaded and ports mapped every port holds the accepted uids in call order, and every call has reported whether it was accepted with what was loaded and mapped before it |
| PortIndex.LastAccepted | src/translator_manager.cpp:64-78 | the last uid of a port is that of the latest call for it that returned true |
| PortIndex.PortsHoldTranslators | src/translator_manager.cpp:46-70 | after any series only loaded translators are on a port, and the first uid of a port is on it once |
| PortIndex.RefusedExample | src/translator_manager.cpp:46-62 | a plugin that is no translator or is not loaded maps nothing |
| PortIndex.LoadedTwiceExample | src/translator_manager.cpp:14-23 | a plugin loaded again stays what it was and is mapped once |
| PortIndex.RemapExample | src/translator_manager.cpp:64-70 | a uid that another one was mapped over cannot be mapped again |
| Delivery.PublishedTreesSurvive | plugins/dispatcher_redis/dispatcher_redis.cpp:20-27 | any number of published trees are told apart again from the bytes sent, and each reads back as the tree it was |
| Delivery.MessageArrives | plugins/dispatcher_redis/dispatcher_redis.cpp:20-27 | a data message rendered by a tracker arrives at the subscriber with every value under its protocol name |

## Left out

- Sockets, the resolver, endpoint retry and the deadlines of timers: their outcomes are the steps of the model; a connect that fails for good, while resolving or at its last endpoint, is `ConnectGivesUp`.
- `reconnect` called from outside a handler: nothing in the repository does it; `connect` and `close` may come at any time (`Connect`, `CloseByUser`).
- What `streambuf::consume` does when asked for more than there is: library-defined, so it is the parameter `leftover`, and every theorem that meets it holds for any value.
- An exception of `at` on an empty line: it leaves the handler with the mutex held for good, and is counted as a handler that never ends (`dead`).
- C++ memory ordering and the owner-thread rules of mutexes: steps are sequentially consistent.
- ReplyReader.ConsumesNothingIffClean: states buffers and queues whose product stays below 2^64; beyond that `left` may wrap around to any number.
- ReplyReader.AnswersTooManyIff: that all waiting callbacks are answered is stated for buffers and queues whose product stays below 2^64; the if-and-only-if is for all.
- RedisPipeline.RepliesMatchRequests: states runs without failed operations, because stale input bytes survive a reconnect; order and completeness of callbacks are proved for all runs.
- The byte framing of the Wialon `handle_read`: the model starts from a whole message and its end token.
- WialonReference.MachineRefinesMeaning: leaves blackbox messages to `WialonBlackbox`, and for an image stops at the request for binary data; the binary mode is unfinished in the source, where the state set at line 368 is overwritten at line 209, and the conversion of `sz` to a number is not modelled.
- WialonBlackbox.BlackboxStores: states the counter of the answer for results that arrive after the message, as when they are posted to the same thread; with other threads at work it depends on their timing.
- Floating-point leaves, and the escapes Boost adds beyond section 7 of RFC 8259 (such as the one for `/`): `EscapeChar` is a table of that section.
- JsonLayout.PrettyIsLaidOut: states trees none of whose 8-bit leaves is printed as a bracket, a comma, a colon or a quotation mark; such a text is no JSON.
- The checks and the final line feed that Boost's `write_json` adds around the recursive writer.
- The depth and width limits of C++ integers in leaves: a leaf integer is any integer.
- RouteTable.Table.Route: returns a copy of the list of targets, where the source shares it with later loading.
- Plugin loading, logging, program options, the TCP accept loop, and the echo and logger plugins: plumbing.
