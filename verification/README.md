# BoostProjects: verified models of its protocols, parsers and pools

The repository is a collection of Boost demos. Most of its logic is Boost's, but it also holds a few
hand-written protocols, grammars, streaming parsers and an allocator whose behaviour is fully visible in the
source. This project models those in Dafny and proves what they keep on every input, every run and every
interleaving.

Boost is only the environment. A socket operation reports a result (bytes, a byte count, end of stream or an
error), and a script or schedule lists the results; every theorem is about all scripts or all schedules. Code
that is a loop in the source is a method with a loop here, an object with handlers is a class whose handlers
update its fields and buffers in place, and each is proved against a step machine or a function about which the
main results are then proved.

## How it is organised

| files | what they hold |
|---|---|
| `Numerals`, `ArithmeticGrammar`, `Expressions`, `IntLists` | the integer token, the arithmetic grammar as recogniser and as context-free grammar, printing and reading expressions, the two list grammars |
| `BinaryParser`, `TokenParser` | the streaming parsers: batch function, loop, and coroutine suspended at its yield |
| `MimeTypes`, `HttpHandler` | content types, the file path, the request handler |
| `HttpSession`, `HttpProtocol`, `HttpOutcome`, `HttpServer` | the keep-alive protocol as blocking loop and as callbacks, what every run of it keeps, what it comes to in terms of its script alone, and any number of sessions with the listener |
| `SlotPool`, `PooledServer`, `PooledHistory`, `PooledEcho`, `PooledObjects` | the slot allocator, the pooled server as a machine over pending handlers, what its schedule says of each session, what it echoes, and the objects that implement it |
| `EchoMachine`, `EchoSessions` | the echo sessions: one machine; callback, coroutine and short-write forms |
| `SslServer`, `SslObjects` | ownership of heap sessions in the SSL server: machine and objects |
| `UdpEcho` | the UDP echo server |
| `Common` | options, bytes, buffers |

Library behaviour that the models rely on:

- `qi::int_` is an optional sign and a maximal run of at least one digit, and fails when the value does not fit
  a 32-bit int. Parsers that fail give back what they read.
- A response's `keep_alive()` is what was last set with `keep_alive(bool)`.
- A successful `async_read_some` into a non-empty buffer brings at least one byte; a successful short write takes
  at least one byte and leaves only through an open socket. A composed write takes its bytes from the caller's
  buffer at the moment each short write happens.
- Handlers of one session do not run at the same time: the pooled, SSL and UDP servers use one thread, and each
  HTTPS session runs on its own strand.

What the proofs show about the code where its own documentation, or a natural reading of it, says something else:

- The pooled server's notes (`Asio_TcpServer/docs/impl.md`) call a null `acquire` an overload policy. In the code
  it is final: no accept is ever started again, since `close` never releases a slot (`PooledServer.IdleForGood`).
  A full pool is not yet an idle acceptor: `PooledServer.FullPoolMayStillAccept` gives the smallest case, and
  `PooledServer.FullPoolAndIdleAcceptor` says exactly when the two agree.
- The pooled session is presented as an echo. It starts its next read before its write completes, and the next
  input overwrites the buffer being sent. `PooledEcho.HarmlessExactlyWhenNotWriting` states exactly when the next
  read can do no harm, and `PooledEcho.OvertakingCorrupts` constructs an input that spoils the stream otherwise;
  `PooledEcho.SomeRunDoesNotEcho` is a whole run, from the start of the server, that receives it.
- The announced content length is narrowed to 16 bits; it is the file size exactly below 65536 bytes.
- A HEAD request is answered without contents only when the file opens; error answers to HEAD carry a text.

## Model

| member | source | states |
|---|---|---|
| Numerals.ParseInt | Spirit/Spirit.cpp:179 | a match is a literal within 32 bits that no digit follows |
| Numerals.ParseIntIsMaximal | Spirit/Spirit.cpp:179 | the token matches n characters if and only if they are a literal and no digit follows |
| Numerals.DecimalRoundTrip | Spirit/Spirit.cpp:179 | decimal notation of any integer denotes it, and is a literal when it fits |
| Numerals.LiteralBounds | Spirit/Spirit.cpp:179 | digits, with or without a plus, are taken up to 2147483647, with a minus up to 2147483648, and have that value |
| Numerals.DigitsArePositional | Spirit/Spirit.cpp:179 | the last digit is the unit and the others stand for tens |
| ArithmeticGrammar.ParseStart | Spirit/Spirit.cpp:177 | the leaves of the tree spell exactly the consumed input, and at least one character is consumed |
| ArithmeticGrammar.ParseProduct | Spirit/Spirit.cpp:178 | the same for products |
| ArithmeticGrammar.ParseFactor | Spirit/Spirit.cpp:179 | the same for factors, integers before groups |
| ArithmeticGrammar.ParseGroup | Spirit/Spirit.cpp:180 | the same for parenthesised sums |
| ArithmeticGrammar.ParseOrDie | Spirit/Spirit.cpp:113-122 | accepting means the tree spells the whole input |
| ArithmeticGrammar.FindsSum | Spirit/Spirit.cpp:176-181 | the recogniser finds any tree from its spelling, whatever follows that cannot continue it |
| ArithmeticGrammar.Unambiguous | Spirit/Spirit.cpp:176-181 | a string has at most one parse tree |
| ArithmeticGrammar.AcceptsExactlyTheLanguage | Spirit/Spirit.cpp:176-181 | the greedy ordered-choice recogniser accepts a whole string if and only if the unordered context-free grammar derives it |
| Expressions.PrintedExprReadsBack | Spirit/Spirit.cpp:170-182 | any expression printed with parentheses only where precedence needs them is accepted whole and read back as itself |
| Expressions.PrintIsInjective | Spirit/Spirit.cpp:170-182 | different expressions print differently |
| Expressions.ReadingIsStable | Spirit/Spirit.cpp:170-182 | printing what any accepted input denotes gives an input that denotes the same |
| IntLists.TerminatedLanguage | Spirit/Spirit.cpp:73-75 | the `*` form accepts whole exactly the bracketed literals with a comma after each, and returns those literals |
| IntLists.TerminatedListTaken | Spirit/Spirit.cpp:73-75 | with the end unchecked, as called: the `*` form takes a list and leaves a rest if and only if the input is that bracketed list followed by that rest |
| IntLists.SeparatedLanguage | Spirit/Spirit.cpp:100-102 | the `%` form accepts exactly the bracketed non-empty literals with commas between them, and returns those literals |
| IntLists.PrintedListsReadBack | Spirit/Spirit.cpp:68-107 | 32-bit lists printed for either form are read back by it; the empty list only by the `*` form |
| IntLists.GrammarsAreDisjoint | Spirit/Spirit.cpp:68-107 | no string is accepted whole by both forms |
| BinaryParser.RunToEnd | Coroutines/main.cpp:133-149 | the loop yields all whole frames and stops at the first incomplete one |
| BinaryParser.Coroutine.constructor | Coroutines/main.cpp:155-157 | a fresh coroutine has everything still to yield |
| BinaryParser.Coroutine.Resume | Coroutines/main.cpp:137-148 | each resumption yields the next message of the batch result, and ends when none is left |
| BinaryParser.PullAll | Coroutines/main.cpp:155-162 | pulling a coroutine to its end yields exactly the batch result |
| BinaryParser.EncodingRoundTrip | Coroutines/main.cpp:137-148 | parsing the encoding of any messages returns them with nothing left |
| BinaryParser.ParseIsTheOnlyFraming | Coroutines/main.cpp:137-148 | a parse is, both ways, the one split of a buffer into encoded messages and an incomplete frame |
| BinaryParser.ChunkingDoesNotMatter | Coroutines/main.cpp:133-149 | feeding any chunks after the unconsumed remainder gives the messages and remainder of one pass |
| TokenParser.RunToEnd | Coroutines/main.cpp:69-84 | the loop yields the tokens of the text |
| TokenParser.Coroutine.Resume | Coroutines/main.cpp:73-83 | each resumption yields the next token, and ends when none is left |
| TokenParser.PullAll | Coroutines/main.cpp:90-97 | pulling one token at a time yields exactly the batch result |
| TokenParser.SplitsTerminated | Coroutines/main.cpp:69-84 | splitting space-free tokens, each followed by a space, returns them |
| TokenParser.JoinsSplit | Coroutines/main.cpp:69-84 | joining the tokens with single spaces gives the text less at most one trailing space |
| TokenParser.SplitIsTheOnlyTokenization | Coroutines/main.cpp:69-84 | a list is the result if and only if it is space-free and terminates to the terminated text |
| MimeTypes.Extension | Beast/http/HTTPS_Server.cpp:56-61 | what follows the last dot, with it; empty if and only if there is no dot |
| MimeTypes.OldLookupIgnoresCase | Beast/http/HTTPS_Server.cpp:53-131 | the old lookup is the new one on the lower-cased path, so they agree on lower-case paths |
| MimeTypes.TypesOfExtensions | Beast/http/HTTPS_Server.cpp:53-131 | either lookup answers with the type of the family that the extension is in, as it is or lower-cased, and with application/text for all others |
| MimeTypes.OrderDoesNotMatter | Beast/http/HTTPS_Server.cpp:87-131 | any arrangement of the same suffix tests gives the same answers |
| MimeTypes.OldOrderDoesNotMatter | Beast/http/HTTPS_Server.cpp:54-85 | any arrangement of the tests of the older lookup gives the same answers |
| HttpHandler.PathCat | Beast/http/HTTPS_Server.cpp:141-152 | the base less one trailing slash, then the path |
| HttpHandler.BuildPath | Beast/http/HTTPS_Server.cpp:201-204 | the same with the index file for directories |
| HttpHandler.FileOfTarget | Beast/http/HTTPS_Server.cpp:141-204 | the file of a target, for a root with and without its last slash and for a target with and without one |
| HttpHandler.AnswersTell | Beast/http/HTTPS_Server.cpp:156-244 | status 400 if and only if the verb or target is not acceptable, and else 404, 500 and 200 if and only if the file is missing, cannot be opened, or opens; what holds of the version, connection wish, type, length and body of every answer |
| HttpHandler.TextsExplain | Beast/http/HTTPS_Server.cpp:160-213 | the text of each answer that is not a file |
| HttpHandler.HeadAnswersLikeGet | Beast/http/HTTPS_Server.cpp:223-243 | HEAD answers as GET, without contents exactly when the file opens |
| HttpHandler.ContentLengthIsExact | Beast/http/HTTPS_Server.cpp:221-241 | the announced length is the file size if and only if the file is below 65536 bytes |
| HttpHandler.BuiltPathStaysInside | Beast/http/HTTPS_Server.cpp:197-204 | the built path starts with the document root, and what follows never leaves the directory it is entered from, at any step and wherever that directory is |
| HttpHandler.NeverLeavesMeansNeverAbove | Beast/http/HTTPS_Server.cpp:197-204 | never leaving any starting directory is the same as never having more parents than names in any leading part |
| HttpHandler.OnlyFilesInsideMatter | Beast/http/HTTPS_Server.cpp:156-244 | nothing outside the document root can influence an answer |
| HttpSession.DoSession | Beast/http/HTTPS_Server.cpp:250-299 | on every script the blocking loop issues, writes and reports what the step machine does, and returns exactly when it has ended |
| HttpSession.Session.OnHandshake | Beast/http/HTTPS_Server.cpp:373-379 | the handler takes the machine's step |
| HttpSession.Session.OnRead | Beast/http/HTTPS_Server.cpp:392-406 | the handler takes the machine's step |
| HttpSession.Session.OnWrite | Beast/http/HTTPS_Server.cpp:417-433 | the handler takes the machine's step |
| HttpSession.Session.OnShutdown | Beast/http/HTTPS_Server.cpp:443-449 | the handler takes the machine's step |
| HttpSession.RunSession | Beast/http/HTTPS_Server.cpp:340-450 | on every script the callback session does what the step machine does |
| HttpSession.BothForms | Beast/http/HTTPS_Server.cpp:250-449 | the blocking loop and the callback chain have the same log of operations, responses and reports, and end together |
| HttpProtocol.ResponsesAnswerRequests | Beast/http/HTTPS_Server.cpp:381-433 | the k-th response is sent if and only if all before it succeeded and kept alive, and it answers the k-th request |
| HttpProtocol.EveryRunIsOrderly | Beast/http/HTTPS_Server.cpp:373-449 | nothing is read or written after a closing response, shutdown is issued at most once, nothing follows a report |
| HttpProtocol.AtMostOneOutstanding | Beast/http/HTTPS_Server.cpp:356-441 | operations issued are operations completed plus at most one |
| HttpOutcome.ReachedState | Beast/http/HTTPS_Server.cpp:373-433 | when the k-th read is awaited, the whole log is the handshake and then reads and the answers to the requests read, in turn |
| HttpOutcome.ShutsDownExactlyWhenClosing | Beast/http/HTTPS_Server.cpp:263-299 | shutdown is issued if and only if a reached read reported the end of the stream, or a written answer does not keep the connection alive |
| HttpOutcome.EndsExactlyWhenTold | Beast/http/HTTPS_Server.cpp:250-299 | a session has ended if and only if some completion ends it: a failed handshake, read or write, or any completion of its shutdown |
| HttpOutcome.ReportsExactlyTheEnd | Beast/http/HTTPS_Server.cpp:133-138 | an error is reported under a label if and only if it is that of the completion that ended the session, of the operation so called, and the stream was not merely truncated |
| HttpServer.SessionRunsAlone | Beast/http/HTTPS_Server.cpp:338-529 | a session's state in any interleaving is its own run on the completions delivered to it, and each of those found an operation outstanding |
| HttpServer.SessionsDoNotInterfere | Beast/http/HTTPS_Server.cpp:338-529 | in every interleaving each session does exactly what it does alone on its own completions, with the three properties above |
| HttpServer.SessionsEndAsTold | Beast/http/HTTPS_Server.cpp:338-529 | in every interleaving each session closes and ends if and only if its own completions say so |
| HttpServer.ListenerStopsAtFirstError | Beast/http/HTTPS_Server.cpp:506-528 | one session per successful accept; the first error ends accepting |
| HttpServer.ListenerReportsItsError | Beast/http/HTTPS_Server.cpp:513-520 | the listener reports an error if and only if an accept failed with it, unless the stream was merely truncated |
| HttpServer.Listener.OnAccept | Beast/http/HTTPS_Server.cpp:513-528 | the handler takes the machine's turn and leaves all other sessions alone |
| HttpServer.Listener.Turn | Beast/http/HTTPS_Server.cpp:452-529 | any turn on the objects is the machine's turn |
| SlotPool.FirstFree | Asio_TcpServer/main.cpp:99-111 | the least free index, or none exactly when all are taken |
| SlotPool.FullExactlyWithoutFreeSlot | Asio_TcpServer/main.cpp:99-111 | there is no free slot if and only if as many are occupied as exist |
| SlotPool.PoolRefinesIndexSet | Asio_TcpServer/main.cpp:99-123 | every sequence of acquires and releases is one on the set of used indices, acquiring the least unused |
| SlotPool.OccupantsStayInPlace | Asio_TcpServer/main.cpp:89-124 | an occupied slot keeps its value until it is released |
| SlotPool.AcquiredValueStays | Asio_TcpServer/main.cpp:99-111 | what is acquired goes to the least unused slot, stays there until that slot is released, and changes no other slot |
| SlotPool.ReleasedSlotIsEmpty | Asio_TcpServer/main.cpp:99-123 | releasing empties that slot alone; a full pool takes nothing |
| PooledServer.EveryRunIsSafe | Asio_TcpServer/main.cpp:45-156 | in every reachable state each pending handler points to an occupied slot holding its session, with one accept at most and one read per session at most |
| PooledServer.DispatchIsSafe | Asio_TcpServer/main.cpp:143-156 | every handler keeps that |
| PooledServer.SlotsAreConserved | Asio_TcpServer/main.cpp:143-156 | occupied slots are accepted connections plus the pending accept; the acceptor is idle if and only if all sessions are accepted |
| PooledServer.IdleForGood | Asio_TcpServer/main.cpp:80-86 | an idle acceptor stays idle, and no slot is freed or taken after that |
| PooledServer.FullPoolAndIdleAcceptor | Asio_TcpServer/main.cpp:143-156 | a full pool means an idle acceptor exactly when no accept holds the last slot |
| PooledServer.FullPoolMayStillAccept | Asio_TcpServer/main.cpp:137-147 | a pool of one is full at start, with its accept pending |
| PooledHistory.SessionsAreTold | Asio_TcpServer/main.cpp:45-86 | in every run a session has its accept pending until that completes and then exactly one read until a read fails; its socket is open until a read or write fails; it has received the chunks of its reads, in order, and sent as many bytes as its writes took |
| PooledEcho.RunsInTurnEcho | Asio_TcpServer/main.cpp:45-78 | where each write completes before the next read of its session, sent is a prefix of received, and all of it while the socket is open and nothing is being written |
| PooledEcho.OvertakingCorrupts | Asio_TcpServer/main.cpp:54-68 | a read that overtakes a write of an open session can spoil the stream: the input is constructed |
| PooledEcho.FirstByteArrives | Asio_TcpServer/main.cpp:45-78 | any server with a slot and a buffer reaches, in turn, a state with a read and a write of one open session pending |
| PooledEcho.SomeRunDoesNotEcho | Asio_TcpServer/main.cpp:45-78 | a whole run from the start of any such server after which a session has sent what it did not receive |
| PooledEcho.EchoesAlwaysOnlyWhenUseless | Asio_TcpServer/main.cpp:45-78 | every run echoes if and only if there are no slots or no buffer to read into |
| PooledEcho.HarmlessExactlyWhenNotWriting | Asio_TcpServer/main.cpp:45-78 | the next read is harmless, whatever it brings, if and only if no write of its session is pending |
| PooledObjects.Session.ReadCompleted | Asio_TcpServer/main.cpp:48-57 | the read handler's effect on both buffers and counters |
| PooledObjects.Session.OnData | Asio_TcpServer/main.cpp:61-68 | the input is copied to the output buffer and the input buffer is emptied |
| PooledObjects.SessionPool.Acquire | Asio_TcpServer/main.cpp:99-111 | the first free slot gets a new session, nothing else changes; none exactly when full |
| PooledObjects.SessionPool.Release | Asio_TcpServer/main.cpp:113-123 | exactly the slot of that session is emptied |
| PooledObjects.Server.DoAccept | Asio_TcpServer/main.cpp:143-148 | the object does what the machine does |
| PooledObjects.Server.OnAccept | Asio_TcpServer/main.cpp:149-155 | the object does what the machine does |
| PooledObjects.Server.Dispatch | Asio_TcpServer/main.cpp:126-157 | every turn on the objects is the machine's turn and leads to a safe state |
| EchoMachine.EveryRunEchoes | Networking/TCPEchoServerClient.cpp:53-75 | for every buffer, chunking and short-write schedule, told by the completions alone: a session takes those before the first that is no success of what it awaits, has received their chunks, has sent as many of these bytes as its writes count, awaits a read if and only if all is written, and has ended if and only if some completion was no success |
| EchoMachine.FittingChunksAreEchoed | Networking/TCPEchoServerClient.cpp:53-75 | chunks that fit the buffer, written in any positive parts, are all echoed and the session reads on |
| EchoMachine.EndedSessionsSent | Networking/TCPEchoServerClient.cpp:53-75 | a session that ended at a read has sent all that arrived; one that ended at a write lacks exactly the bytes still to be written |
| EchoMachine.BufferContentDoesNotShow | Asio/Coroutines/CoroutineApps.cpp:91-103 | what a buffer held before never shows |
| EchoSessions.TcpSession.Complete | Networking/TCPEchoServerClient.cpp:53-75 | the callback session takes the machine's step |
| EchoSessions.TcpSession.OnRead | Networking/TCPEchoServerClient.cpp:58-62 | writes what was read, or lets go on an error |
| EchoSessions.TcpSession.OnWrite | Networking/TCPEchoServerClient.cpp:70-74 | reads again, or lets go on an error |
| EchoSessions.AsyncWrite | Asio/Coroutines/CoroutineApps.cpp:99-101 | short writes send the buffer in order until it is gone, an error throws, or results run out |
| EchoSessions.Session | Asio/Coroutines/CoroutineApps.cpp:91-109 | the coroutine loop receives, sends and ends as the machine does on every script |
| EchoSessions.EchoOnce | Asio/Coroutines/CoroutineApps.cpp:150-157 | one chunk through a fresh buffer is one read and one whole write of the machine |
| EchoSessions.Echo | Asio/Coroutines/CoroutineApps.cpp:159-171 | the refactored loop does the same as the machine, hence as the first loop |
| EchoSessions.WriteToSocket | Networking/Networking.cpp:285-296 | for any message and results, what has left is a prefix, its length the sum of the results, and the whole message exactly when the loop is done |
| SslServer.EveryRunOwns | Networking/SSL_TCPServer.cpp:52-97 | live sessions and pending operations correspond one to one; nothing deleted is used or deleted again |
| SslServer.DispatchIsOwned | Networking/SSL_TCPServer.cpp:134-151 | every handler keeps that |
| SslServer.SessionsAreCounted | Networking/SSL_TCPServer.cpp:134-151 | as many sessions are live as operations are pending, and all others ever allocated were deleted once |
| SslServer.DeletedExactlyOnFailure | Networking/SSL_TCPServer.cpp:58-151 | a session is deleted if and only if its accept or handshake reported an error, or one of its reads and writes did not succeed |
| SslServer.NextOperationIsPending | Networking/SSL_TCPServer.cpp:52-151 | any other session has its accept, handshake, read or write pending, as its own completions say, and is what the echo machine makes of these |
| SslServer.AlwaysOneAccept | Networking/SSL_TCPServer.cpp:134-151 | exactly one accept is pending after every handler, as long as no deletion ends the process |
| SslServer.LiveSessionsEcho | Networking/SSL_TCPServer.cpp:70-97 | each live session has sent a prefix of what it received, and all of it unless its write is pending |
| SslObjects.Server.HandleAccept | Networking/SSL_TCPServer.cpp:142-151 | the object does what the machine does |
| SslObjects.Server.HandleHandshake | Networking/SSL_TCPServer.cpp:58-68 | the object does what the machine does |
| SslObjects.Server.HandleRead | Networking/SSL_TCPServer.cpp:70-82 | the object does what the machine does |
| SslObjects.Server.HandleWrite | Networking/SSL_TCPServer.cpp:84-97 | the object does what the machine does |
| SslObjects.Server.Dispatch | Networking/SSL_TCPServer.cpp:110-157 | every turn on the objects is the machine's turn and keeps ownership |
| UdpEcho.EveryRunIssuesEchoes | Networking/UDPEchoServerClient.cpp:58-80 | exactly one operation is pending; the sends issued are the successful non-empty receives in order, each to its sender, with all bytes of the datagram or the first that fill the buffer |
| UdpEcho.EveryRunEchoes | Networking/UDPEchoServerClient.cpp:58-80 | what has left is the echoes whose sends succeeded, each with its own bytes; it is all that was issued, less the send under way, if and only if no completed send reported an error |
| UdpEcho.ServerAsync.OnReceive | Networking/UDPEchoServerClient.cpp:62-70 | the handler takes the machine's step |
| UdpEcho.ServerAsync.OnSend | Networking/UDPEchoServerClient.cpp:77-79 | the handler takes the machine's step with either result: it receives again, and only a send without an error has left |

## Left out

- Sockets, TLS, certificates, DNS, timers and the `io_context` itself: each operation is a result in a script or schedule. The 30-second timeouts are one more source of errors.
- HTTP parsing and serialising in Beast, the constant `Server` field and the bytes of served files: requests and responses are records.
- Numeric results of the arithmetic grammar: it has no semantic actions, so only trees are claimed. `Expressions` groups repeated operands to the left by choice.
- The exception and message that `ParseOrDie` raises for unparseable input: modelled as no result.
- `accumulator`, `multiply` and the demos around them: a sum and a doubling would only add easy members.
- BinaryParser.Coroutine.Resume: messages carry their bytes, not a pointer into the buffer, so aliasing with the buffer is not captured; the same holds for tokens.
- PooledServer.EveryRunIsSafe: buffers start zeroed and both have the same size, which is a parameter; the alignment of the buffers and the listening port are not modelled.
- PooledObjects.SessionPool.Acquire: a pointer to a slot is its index together with the session object in it, so that a later session in the same slot is told from an earlier one.
- SslServer.EveryRunOwns: addresses are never reused, so reuse by the allocator after a deletion is not modelled; nor is the shutdown that the destructor performs.
- SslServer.AlwaysOneAccept: the destructor's `socket.shutdown()` (Networking/SSL_TCPServer.cpp:101) throws on an error, which inside a destructor ends the process; this and the other results of `SslServer` are about runs in which no deletion throws, and about any other run up to the handler whose deletion does.
- The accept loops of the callback TCP server and the coroutine servers, which hand each connection to a new session and keep no state.
- `AcceptServer::echo`, which is `EchoServer_One::session` again, and the disabled `EchoServer_Single`.
- Web sockets, HTTP clients, serial ports, timers, thread pools, collections, JSON, UUID, logging and program options: library calls, output, or straight-line chains.
