# An event-driven HTTP proxy, modelled and verified

The proxy serves each client with one connection object driven by a `select` loop. It reads a request line, resolves the
host over DNS-over-HTTPS when it is a name (A first, then AAAA), tries the addresses one after the other, sends a rewritten
request line and then relays bytes both ways through two bounded buffers until both peers have closed.

The project models one connection in isolation, for any sequence of events the selector can deliver: reads of any number of
bytes that fit, ends of stream and read failures on either side, partial writes, finished or failed connects, sockets that
cannot be opened or registered, allocations that fail. Times, sockets, `select` itself, logs and metrics are outside; what
they decide is a parameter of the event.

How the files fit together:

- `Machine.dfy` is the connection as a state machine: one function per handler of the original and `Next` for one event.
  `Wire` and `Log` record what went over the sockets and through the resolver. `Ground.dfy` shows that the record is what
  the events carried.
- `Invariant.dfy` says what holds in every reachable state; `RelayProof`, `SetupProof`, `ResolveProof` and `StepProof` show
  that every event keeps it; `Runs.dfy` puts them together for whole runs, and `Theorems.dfy` states the guarantees.
  `Transitions.dfy` says exactly where each event of the setup leads, `Reach.dfy` builds runs through it, and `Progress.dfy`
  says what gets done: the queries sent, when AAAA is asked for, that the relay is reached.
  `Resolution.dfy` follows name resolution from the bytes the resolver sends to the addresses tried, `Rank.dfy` has its
  termination measure and the bound on attempts, and `Faults.dfy` the runs on which the proxy hangs or crashes.
- `Connection.dfy` is the connection as the object the handlers update in place, each method proved against the machine.
- `Buffer`, `RequestLine`, `RequestPrint`, `Rewrite`, `StatusLine`, `Headers`, `Dns`, `DnsParser`, `DnsPrint`, `DohQuery`,
  `Framing` and `Failover` are the parts the machine is made of. The parsers exist twice: as functions, about which
  round trips and invariants are proved, and as objects with arrays, proved to follow those functions.
  `Accept` says that they accept nothing else, and `Replies` puts the proxy's own messages in their grammar.
- `Base64`, `Selector`, `Keyword` and `Inet` stand on their own.

Assumptions, each visible in a contract: buffers have their default capacity of 8192 bytes; the configured resolver path and
host have at most 7000 bytes together (`SetupProof.Fits`); claims about the order of attempts are for responses of at most
255 answers (`Invariant.Small`), because the index over the answers is eight bits wide. The outcomes an event lists for
sockets to come are followed by failures.

What the code does that its comments and names do not suggest, and that the model keeps:

- A resolver that sends bytes after the complete DNS message in a later read makes the waiting loop spin, and one that closes
  after a non-zero first byte of ANCOUNT makes the failover loop follow a null pointer. `Theorems.ExitsExactly` gives the
  exact conditions, `Faults` the runs.
- With 256 answers or more the failover loop cannot run out of answers; `Failover.SpinsExactly` says when it never returns.
- A record name made of labels and a pointer is lost: the pointer to the question name is stored in a union with the labels.
  The address is any eight bytes, `Dns.QNAME_ADDRESS`.
- A response with no header field at all is rejected.
- A fifth digit of a port is an error, because the length is looked at before the terminator. A colon with no digits after
  it swaps the bytes of port 80 a second time.
- An empty label in a domain ends the encoded name early. An empty host makes the query builder look at the byte before the
  array, which is a parameter of the query functions and 0 in the machine.
- The declared length of a query is kept in eight bits and is right only for domains of up to 237 bytes.
- The limits of the header parser on name and value lengths never take effect.
- Registering the descriptor equal to the size of the selector's table looks outside the table; only a table of the size the
  proxy asks for is safe.

## Model

| member | source | states |
|---|---|---|
| `Theorems.LosslessRelay` | connections_manager/connections_manager.c:162-309 | on every run, in every relay state: bytes sent to the client followed by the bytes buffered for it are the printed status line 200 OK of version 1.0 with an empty header section (CONNECT only) followed by every byte the origin sent; and, unless it is CONNECT, bytes sent to the origin followed by the bytes buffered for it are the rewritten request line followed by every client byte after the byte that completed its request line |
| `Theorems.DeliveredInFull` | states/empty_buffers/empty_buffers.c:14-25 | every run that reaches DONE through the relay has seen both ends of stream, shut each side down exactly once, and sent both streams in full, the reply to CONNECT included |
| `Theorems.ErrorsReported` | states/error/error.c:10-86 | in the error state of every run what has been sent to the client and what is buffered for it is the whole reply for the code, and a run that ends in DONE with an error has sent all of it |
| `Replies.OkLineIs` | states/try_connection_ip/try_connection_ip.c:30-43 | the reply to CONNECT is a printed status line of version 1.0, code 200 and reason OK, and an empty header section |
| `Replies.ErrorTextIs` | states/error/error.c:14-58 | for each code the handlers set, the message is the printed status line with that code and its reason, and an empty header section |
| `Replies.ErrorReplyCode` | states/error/error.c:76-86 | read with the status-line parser, the reply to an error gives its code |
| `Transitions.ParsingExactly` | states/parsing_request_line/parsing_request_line.c:39-104 | each read of the request line is answered by what all the bytes so far spell: 501 for a bad method, 505 for a bad version, 400 for anything else rejected, 500 when no socket can be had, TRY_CONNECTION_IP with the request built from the line otherwise, the rest of the read kept, or dropped for CONNECT |
| `Transitions.ConnectedExactly` | states/try_connection_ip/try_connection_ip.c:24-47 | a connected resolver is sent a query, A first and AAAA second; a connected origin is sent exactly the rewritten request line, or for CONNECT the relay starts with the 200 reply pending |
| `Transitions.RefusedExactly` | states/try_connection_ip/try_connection_ip.c:50-59 | a refused connection, with at most 255 answers: the first remaining record of the family that gets a socket is tried; else, from A, the resolver is asked again; else 500; without a resolution in use always 500 |
| `Transitions.ClosedExactly` | states/await_doh_response/await_doh_response.c:81-85 | the same decision when the resolver closes, on the response just read |
| `Transitions.DecidedIff` | utils/doh/doh_utils.c:143-250 | the resolution enters ERROR if and only if the resolver cannot be or need not be asked again and no remaining record gets a registered socket, and TRY_CONNECTION_IP if and only if otherwise |
| `Transitions.ReadExactly` | states/await_doh_response/await_doh_response.c:32-80 | bytes from the resolver are answered by what everything it has sent amounts to: 502 for a malformed answer, 500 without memory where it is needed, AAAA (or 500) for an empty answer, waiting on otherwise |
| `Transitions.SentExactly` | states/send_request_line/send_request_line.c:22-32 | a query or request line being written is left exactly when all of it is out |
| `Transitions.EndsExactly` | connections_manager/connections_manager.c:326-335 | a connection ends if and only if an event fails, the client closes before it is connected, or DONE is reached, with both streams delivered or the whole error message sent |
| `Progress.LineAnswered` | states/parsing_request_line/parsing_request_line.c:80-104 | on every run, while the request line is read, the state and the error code are those of everything the client has sent: 501 for a bad method, 505 for a bad version, 400 for anything else that is not a request line |
| `Progress.QueryOnWire` | states/send_doh_request/send_doh_request.c:33-49 | on every run what is sent to the resolver is the POST of one question about the host of the client's request line, of type 1 for the first query and 28 for the second |
| `Progress.AaaaIsAsked` | utils/doh/doh_utils.c:153-213 | on every run: when the response reports an error or none of its remaining A records gets a socket, and the resolver's socket can be had, TRY_CONNECTION_IP is entered for AAAA |
| `Progress.AaaaIsSent` | states/try_connection_ip/try_connection_ip.c:24-29 | and once that socket connects, the AAAA query is pending and both queries are on record |
| `Progress.EmptyVerdict` | states/await_doh_response/await_doh_response.c:62-74 | a printed head and a message with ANCOUNT zero is an empty answer in any division into reads, whatever memory there is |
| `Progress.EmptyAnswerAsksAgain` | states/await_doh_response/await_doh_response.c:62-74 | on every run an empty answer to the A query leads to TRY_CONNECTION_IP for AAAA |
| `Progress.AddressIsReached` | states/try_connection_ip/try_connection_ip.c:24-47 | for every printable request to an IPv4 address there is a run from a new connection to the relay with exactly the rewritten line sent, or for CONNECT with the 200 reply pending |
| `Progress.NameIsReached` | utils/doh/doh_utils.c:175-213 | the same for every printable request to a name and every printed response with an A record, in any reads |
| `Reach.AskedByName` | states/parsing_request_line/parsing_request_line.c:125-148 | a host is resolved if and only if it is not a dotted address, and the name asked for is the printed host |
| `Theorems.ShutOnlyWhenDrained` | states/closing/closing.c:55-106 | in every relay state of every run a socket is shut down for writing at most once, and only when the opposite peer has closed and its buffer is empty |
| `Theorems.SilentAfterShutdown` | states/closing/closing.c:15-52 | from any relay state of a run to any later state: a side that has been shut down is never written to nor shut down again |
| `Theorems.InterestSoundness` | states/connected/connected.c:69-104 | in every running state of every run: read interest means free space in the buffer that is read into, write interest outside TRY_CONNECTION_IP means pending bytes in the buffer that is sent from, and every event the selector can deliver finds a handler in the state table |
| `Theorems.NeverStuck` | utils/buffer/buffer.c:55-64 | in every running state of every run some event is enabled; in CLOSING exactly one side has closed; in EMPTY_BUFFERS something is pending |
| `Theorems.DrainTerminates` | states/empty_buffers/empty_buffers.c:14-56 | from EMPTY_BUFFERS every successful write makes the buffers smaller; after as many as there were buffered bytes the connection has ended with both streams delivered |
| `Theorems.FailoverOrder` | utils/doh/doh_utils.c:143-250 | on every run at most two queries are sent, A then AAAA; every response used says what the parsers make of the bytes it was read from; when none has more than 255 answers the addresses tried are a prefix of the first response's A records in order, followed, only once those are used up, by the second one's AAAA records in order |
| `Resolution.PrintedFailover` | utils/doh/doh_utils.c:143-250 | end to end: if the responses of a run are printed ones of at most 255 answers, the addresses tried are a prefix of the A addresses printed in the first followed by the AAAA addresses printed in the second, in printed order, and no AAAA address is tried before every A address |
| `Resolution.ResponsesHeard` | states/await_doh_response/await_doh_response.c:32-85 | on every run each response used was read from exactly the bytes the read events brought between its query and its end, however they were split |
| `Resolution.BytesHeard` | states/await_doh_response/await_doh_response.c:12-33 | in every waiting state of a run the bytes read from the resolver are those the events since its query brought |
| `Resolution.CloseIsLogged` | states/await_doh_response/await_doh_response.c:81-85 | when the resolver closes, the response used is the one its bytes since the query spell |
| `Theorems.AnswersFreedOnce` | connections_manager/connections_manager.c:338-357 | on every run: answer arrays allocated are those freed plus at most one held, an inactive resolution holds none, and none is left at the end |
| `Theorems.ExitsExactly` | states/await_doh_response/await_doh_response.c:32-85 | a run hangs at an event if and only if the event is bytes after a complete DNS message, or starts a walk over 256 answers or more of which none of the first 256 is of the wanted type or for which every socket fails; and it follows a null pointer if and only if the resolver closes between the two bytes of an ANCOUNT whose first byte is not zero |
| `Faults.CutResponseCrashes` | utils/doh/doh_utils.c:184-186 | for every request for a name, every HTTP head and every division into reads: a run from a fresh connection on which a response cut inside ANCOUNT leads to the null dereference |
| `Faults.ExtraByteHangs` | states/await_doh_response/await_doh_response.c:32-77 | for every request for a name, every printed response and every division into reads: a run from a fresh connection on which one byte after the complete message leads to the endless loop |
| `Faults.ManyAnswersHang` | utils/doh/doh_utils.c:184-208 | for every printed response of 256 answers or more without an A record among the first 256, in any reads: a run from a fresh connection on which its end leads to the endless walk |
| `Rank.AttemptsLowerRank` | utils/doh/doh_utils.c:143-250 | with at most 255 answers per response, every step that enters TRY_CONNECTION_IP again lowers (queries left, answers left) lexicographically and no other step of the resolution changes it |
| `Rank.FinitelyManyTries` | utils/doh/doh_utils.c:143-250 | on every run with at most 255 answers per response the number of sockets tried is at most two more than the number of answers received |
| `Runs.RunKeeps` | state_machine/stm.c:31-78 | the invariant (interests, buffers, streams, shutdowns, resolution) holds in every running state of every run, and every ended one is accounted for |
| `Runs.StepOk` | state_machine/stm_initializer.c:16-75 | any enabled event in any state of the invariant keeps it, ends with everything accounted for, or leaves through one of the two named faults, both directions |
| `Runs.FreshInv` | connections_manager/connections_manager.c:122-157 | a new connection satisfies the invariant |
| `Ground.ClientStreams` | connections_manager/connections_manager.c:162-218 | on every run the recorded client streams are exactly the bytes the read events carried and the bytes the write events took out of the origin buffer |
| `Ground.OriginStreams` | connections_manager/connections_manager.c:233-309 | the same for the origin from any relay state on |
| `RelayProof.RelayStep` | states/closing/closing.c:15-106 | every event of the relay phase keeps shape and streams without touching the resolution, or ends with everything delivered |
| `StepProof.ParsingStep` | states/parsing_request_line/parsing_request_line.c:39-78 | every event while the request line is read keeps the invariant; the rest of the read that completes it stays buffered, or is dropped for CONNECT |
| `StepProof.TryStep` | states/try_connection_ip/try_connection_ip.c:21-59 | every outcome of a connect keeps the invariant; the null dereference is impossible here and the endless walk is characterised |
| `StepProof.SendStep` | states/send_doh_request/send_doh_request.c:22-31 | every partial write of a query or of the request line keeps the invariant |
| `StepProof.AwaitStep` | states/await_doh_response/await_doh_response.c:22-88 | every read from the resolver keeps the invariant, with the two faults characterised |
| `ResolveProof.NextDnsOutcome` | utils/doh/doh_utils.c:143-250 | looking for the next address keeps the ledger and the order of attempts and leads to a new attempt, the second query, or an error |
| `ResolveProof.SwitchedOutcome` | utils/doh/doh_utils.c:153-172 | a resolver that cannot be reached for the second query leads to an error without looking at the freed array |
| `SetupProof.ErrorStep` | states/error/error.c:63-72 | writing the error message keeps the invariant and ends accounted for |
| `Connection.ProxyConnection.Handle` | utils/selector/selector.c:498-530 | for any event: the object's new state is the machine's, so what holds on every run holds of the object |
| `Connection.ProxyConnection.constructor` | connections_manager/connections_manager.c:122-157 | a new connection is the machine's initial state |
| `Connection.ProxyConnection.ProxyClientRead` | connections_manager/connections_manager.c:161-194 | reads, end of stream and failure on the client's descriptor, as the machine has them |
| `Connection.ProxyConnection.ProxyClientWrite` | connections_manager/connections_manager.c:196-218 | a partial write takes exactly the bytes sent out of the origin buffer, then the state's handler runs |
| `Connection.ProxyConnection.ProxyOriginRead` | connections_manager/connections_manager.c:232-262 | reads, end of stream and failure on the origin's descriptor |
| `Connection.ProxyConnection.ProxyOriginWrite` | connections_manager/connections_manager.c:264-309 | a partial write takes its bytes from the buffer the state prescribes; in TRY_CONNECTION_IP nothing is sent |
| `Connection.ProxyConnection.Close` | connections_manager/connections_manager.c:326-360 | both descriptors leave the selector and the answers are freed when the resolution is active |
| `Connection.ProxyConnection.SetConnectionInterests` | states/connected/connected.c:68-104 | interests follow the two buffers |
| `Connection.ProxyConnection.SetClosingInterests` | states/closing/closing.c:54-106 | interests and shutdowns of a half-closed connection |
| `Connection.ProxyConnection.SetEmptyBuffersInterests` | states/empty_buffers/empty_buffers.c:26-56 | interests and shutdowns of the final drain |
| `Connection.ProxyConnection.ConnectedOnReadReady` | states/connected/connected.c:24-59 | an end of stream leads to CLOSING, anything else updates the interests |
| `Connection.ProxyConnection.ClosingOnReadReady` | states/closing/closing.c:14-44 | the second end of stream leads to DONE with empty buffers, else to EMPTY_BUFFERS |
| `Connection.ProxyConnection.EmptyBuffersOnWriteReady` | states/empty_buffers/empty_buffers.c:13-25 | DONE once both sides are closed |
| `Connection.ProxyConnection.EstablishOrigin` | utils/doh/doh_utils.c:104-140 | a socket that cannot be opened or registered is an error, else TRY_CONNECTION_IP with a fresh origin |
| `Connection.ProxyConnection.TryNextOfFamily` | utils/doh/doh_utils.c:175-250 | the walk over the answers, its attempts, and what follows when it runs out |
| `Connection.ProxyConnection.TryNextDnsConnection` | utils/doh/doh_utils.c:143-173 | unregisters, then walks the answers, switches to AAAA, or fails |
| `Connection.ProxyConnection.TryConnectionOnWriteReady` | states/try_connection_ip/try_connection_ip.c:20-59 | what a finished connect leads to |
| `Connection.ProxyConnection.ConsumeLine` | states/parsing_request_line/parsing_request_line.c:44-46 | the buffer-draining loop takes exactly the bytes up to the end of the request line |
| `Connection.ProxyConnection.CompleteLine` | states/parsing_request_line/parsing_request_line.c:50-71 | origin or resolver opened, request built, the rest of the read dropped for CONNECT |
| `Connection.ProxyConnection.ParsingOnReadReady` | states/parsing_request_line/parsing_request_line.c:38-104 | the outcome of one read of the request line, with the three error codes |
| `Connection.ProxyConnection.AwaitOnReadReady` | states/await_doh_response/await_doh_response.c:21-88 | the outcome of one read from the resolver |
| `Connection.ProxyConnection.ActOnVerdict` | states/await_doh_response/await_doh_response.c:56-79 | what each verdict of the parsers leads to |
| `Connection.ProxyConnection.SendDohOnArrival` | states/send_doh_request/send_doh_request.c:11-49 | the query for the current record type is appended to the origin buffer |
| `Connection.ProxyConnection.SendLineOnArrival` | states/send_request_line/send_request_line.c:10-46 | the rewritten request line is appended to the origin buffer |
| `Connection.ProxyConnection.ErrorOnArrival` | states/error/error.c:10-86 | the origin buffer holds exactly the error message and the client is written to |
| `Connection.ProxyConnection.InitDohState` | states/await_doh_response/await_doh_response.c:90-113 | parsers and counters start again, the record type stays; a first allocation may fail |
| `Connection.ProxyConnection.JumpTo` | state_machine/stm.c:40-54 | the arrival handler runs exactly when the state changes |
| `Connection.ProxyConnection.StmHandlerRead` | state_machine/stm.c:56-66 | the current state's read handler and the jump |
| `Connection.ProxyConnection.StmHandlerWrite` | state_machine/stm.c:68-78 | the current state's write handler and the jump |
| `Connection.ParseLine` | states/parsing_request_line/parsing_request_line.c:44-73 | the loop feeds the parser exactly what the specification consumes and leaves the rest in the buffer |
| `Connection.ParseResponse` | states/await_doh_response/await_doh_response.c:32-80 | the loop feeds the three parsers exactly what the specification drains |
| `Failover.WalkAnswers` | utils/doh/doh_utils.c:184-208 | the loop computes the walk that the lemmas are about |
| `Failover.WalkInOrder` | utils/doh/doh_utils.c:184-208 | with at most 255 answers, whatever the sockets do, the walk ends, tries exactly the wanted records it passes, each once and in order, and gives up only after the last |
| `Failover.WalkExactly` | utils/doh/doh_utils.c:184-208 | with at most 255 answers the j-th remaining record gets the j-th socket: the walk stops at the first that can be had, and gives up, having asked for all, exactly when there is none |
| `Failover.SpinsExactly` | utils/doh/doh_utils.c:184-208 | from any index, the walk never ends if and only if there are 256 answers or more and none of the first 256 is of the wanted type or every socket fails |
| `Failover.TerminatesIffEightBits` | connections_manager/connections_def.h:47-59 | the walk ends for all socket outcomes if and only if there are at most 255 answers |
| `Failover.WrapNeverExhausts` | utils/doh/doh_utils.c:184-185 | with 256 answers or more the walk never gives up |
| `Framing.ChunkIndependent` | states/await_doh_response/await_doh_response.c:32-80 | for every division of a response into reads the outcome is that of one unsplit read |
| `Framing.Segments` | states/await_doh_response/await_doh_response.c:32-80 | the three parsers consume consecutive segments of the response, each of the first two ending with the byte that makes its parser done |
| `Framing.MessageFollowsBlankLine` | states/await_doh_response/await_doh_response.c:43-57 | the DNS parser sees exactly the bytes after the blank line that ends the header section: one ends where the message starts, and no earlier one exists |
| `Framing.ResponseRoundTrip` | states/await_doh_response/await_doh_response.c:32-80 | a printed status line, headers and DNS message, split anyhow and whatever follows, is complete with exactly the printed answers |
| `Framing.MemoryIrrelevant` | states/await_doh_response/await_doh_response.c:59-61 | whether memory is there matters only to a response that runs out of it |
| `Framing.MemoryExactly` | parsers/doh_parser/doh_parser.c:277-283 | without memory a response runs out of it if and only if reading on would have allocated its answers |
| `Framing.VerdictOfSegments` | states/await_doh_response/await_doh_response.c:32-80 | the verdict is that of the segment a response stops in: bad gateway if and only if one of the three parsers rejects its segment, no records if and only if ANCOUNT is zero, complete if and only if the message is |
| `Framing.DrainKeepsArray` | parsers/doh_parser/doh_parser.c:259-283 | an answer array is allocated at most once per response |
| `DnsPrint.ParseOfPrint` | parsers/doh_parser/doh_parser.c:90-711 | every printed message is done exactly on its last byte with every header and question field equal to the source and every entry the one its record stands for |
| `DnsPrint.AnswerOfFields` | parsers/doh_parser/doh_parser.c:420-711 | type, class, TTL, 14-bit offset, length of the name and address of an entry are the printed record's, through dotted decimal for A; the name itself is if and only if no pointer follows its labels or the pointer happens to spell its first eight bytes |
| `DnsPrint.PointerLosesName` | parsers/doh_parser/doh_parser.c:457-475 | wherever the question name lies in memory there is a record, labels then a pointer, whose name is overwritten |
| `Dns.FeedKeepsValid` | parsers/doh_parser/doh_parser.c:90-711 | whatever the byte: counters stay in the range their state expects, the array has ANCOUNT entries and the current one exists |
| `Dns.FailsOnlyOnType` | parsers/doh_parser/doh_parser.c:565-602 | whatever the input, the error state is reached only by a record that is neither A, AAAA nor CNAME |
| `Dns.UnsupportedFails` | parsers/doh_parser/doh_parser.c:565-602 | and it is reached by every such record |
| `Dns.CountDecides` | parsers/doh_parser/doh_parser.c:258-290 | whatever the input: no answers if and only if eight bytes have been read and the last two are zero; no memory if and only if they are not both zero and there was none |
| `Dns.TerminalAbsorbs` | parsers/doh_parser/doh_parser.c:90-175 | the final states absorb whatever follows |
| `DnsParser.ResponseParser.constructor` | parsers/doh_parser/doh_parser.c:74-79 | the initial parser |
| `DnsParser.ResponseParser.Free` | parsers/doh_parser/doh_parser.c:81-87 | the answers are gone, everything else stays |
| `DnsParser.ResponseParser.FeedByte` | parsers/doh_parser/doh_parser.c:90-175 | the object follows the specification and keeps its invariant |
| `DnsParser.ResponseParser.FeedHeaderByte` | parsers/doh_parser/doh_parser.c:178-257 | identifier, flags and QDCOUNT |
| `DnsParser.ResponseParser.FeedCountByte` | parsers/doh_parser/doh_parser.c:258-290 | ANCOUNT: no answers, no memory, or an array of that many zeroed answers |
| `DnsParser.ResponseParser.FeedQuestionByte` | parsers/doh_parser/doh_parser.c:292-417 | NSCOUNT, ARCOUNT and the question |
| `DnsParser.ResponseParser.FeedNameByte` | parsers/doh_parser/doh_parser.c:419-475 | the name of a record: labels, end, or a pointer, which overwrites the first eight bytes of the labels |
| `DnsParser.ResponseParser.FeedFixedByte` | parsers/doh_parser/doh_parser.c:477-601 | type, class, TTL and RDLENGTH |
| `DnsParser.ResponseParser.FeedRdataByte` | parsers/doh_parser/doh_parser.c:603-711 | addresses and aliases |
| `Inet.Pton4Exact` | parsers/doh_parser/doh_parser.c:617-622 | dotted-decimal text is accepted exactly when it is the canonical text of the address it yields |
| `DohQuery.BuildQuery` | utils/doh/doh_utils.c:58-77 | the in-place, back-patched encoding is the label encoding of the domain |
| `DohQuery.BodyPrinted` | utils/doh/doh_utils.c:51-56 | the body is a message with identifier 0, recursion desired, one question with the labels of the domain, the type asked for and class 1, and nothing else |
| `DohQuery.RequestPrinted` | utils/doh/doh_utils.c:81-102 | the request is a POST of the path in version 1.0, four printed header fields with the declared length, and that body |
| `DohQuery.QNameRoundTrip` | parsers/doh_parser/doh_parser.c:340-368 | fed to the question states the encoding gives the domain with exactly one trailing dot and stops at QTYPE, if and only if no label is empty |
| `DohQuery.DeclaredLength` | utils/doh/doh_utils.c:79-86 | the declared content length is the body's if and only if it fits eight bits: at most 237 bytes of domain, 238 with a trailing dot |
| `DohQuery.RequestLength` | utils/doh/doh_utils.c:81-102 | the request fits the origin buffer for every configuration with a short path and host |
| `RequestPrint.RoundTrip` | parsers/request_line_parser/request_line_parser.c:56-445 | every printed request line parses to the same method, host, port, path and version and is done exactly at its LF |
| `Accept.OnlyRequestLines` | parsers/request_line_parser/request_line_parser.c:56-445 | only input that starts with a well-formed request line is accepted |
| `Accept.BadMethodExactly` | parsers/request_line_parser/request_line_parser.c:101-115 | a method is bad if and only if at some byte it is longer than 24 or meets neither a token byte nor the space after it |
| `Accept.OnlyLongVersions` | parsers/request_line_parser/request_line_parser.c:379-437 | only input with a version number of two digits is a bad version |
| `RequestPrint.LongVersionFails` | parsers/request_line_parser/request_line_parser.c:379-437 | and every printable line with one is, whatever follows |
| `RequestLine.FeedAllValid` | parsers/request_line_parser/request_line_parser.c:101-359 | whatever the bytes, method, host and path stay inside their arrays and terminated |
| `RequestLine.ConsumeStopsFirst` | states/parsing_request_line/parsing_request_line.c:44-73 | exactly the bytes up to the first final state are taken |
| `RequestLine.ConsumeChunks` | states/parsing_request_line/parsing_request_line.c:44-73 | splitting the input changes neither the outcome nor the byte it stops at |
| `Rewrite.RewriteFits` | states/parsing_request_line/parsing_request_line.c:107-148 | for every accepted request the method, rewritten line and target string fit their arrays with their NUL |
| `RequestPrint.PortExactly` | parsers/request_line_parser/request_line_parser.c:294-343 | a line spelled right apart from the number of its port digits is accepted if and only if there are at most four, and the number stored is the printed one if and only if there is at least one; with none the bytes of 80 are swapped twice |
| `RequestPrint.PortNeverWraps` | parsers/request_line_parser/request_line_parser.c:294-343 | whatever the input, while at most four digits have been read the port is exactly their number, and only then does the parser leave it without an error |
| `Rewrite.RewriteOfPrint` | states/parsing_request_line/parsing_request_line.c:114-122 | the rewritten line of a printed request: same method, its path, version 1.0; CONNECT if and only if the method is |
| `Rewrite.TargetOfPrint` | states/parsing_request_line/parsing_request_line.c:125-145 | the target string of a printed request: scheme, host, number of the port, path |
| `RequestLine.RequestParser.constructor` | parsers/request_line_parser/request_line_parser.c:48-53 | the initial parser |
| `RequestLine.RequestParser.Reinit` | parsers/request_line_parser/request_line_parser.c:48-53 | back to the initial parser from any state |
| `RequestLine.RequestParser.FeedByte` | parsers/request_line_parser/request_line_parser.c:56-98 | the object follows the specification inside its arrays |
| `RequestLine.RequestParser.FeedMethodByte` | parsers/request_line_parser/request_line_parser.c:101-129 | method bytes and its end |
| `RequestLine.RequestParser.FeedHostByte` | parsers/request_line_parser/request_line_parser.c:157-235 | host bytes and the four ways it ends |
| `RequestLine.RequestParser.ResolveIpv4` | parsers/request_line_parser/request_line_parser.c:258-278 | an IPv4 literal replaces the name; the port becomes 80 |
| `RequestLine.RequestParser.FeedPortByte` | parsers/request_line_parser/request_line_parser.c:294-343 | port digits and the ways it ends |
| `RequestLine.RequestParser.FeedVersionByte` | parsers/request_line_parser/request_line_parser.c:361-445 | the version and the line end |
| `StatusLine.RoundTrip` | parsers/status_line_parser/status_line_parser.c:32-199 | every printed status line parses to the same version, code and reason and is done exactly at its LF |
| `Accept.OnlyStatusLines` | parsers/status_line_parser/status_line_parser.c:32-199 | only input that starts with a well-formed status line is accepted |
| `StatusLine.StatusLineParser.FeedByte` | parsers/status_line_parser/status_line_parser.c:32-66 | the object follows the specification inside its array |
| `Headers.DoneAtBlankLine` | parsers/headers_parser/headers_parser.c:29-128 | on input that is not rejected the parser is done if and only if a blank line has been read, and turns done on that line's LF |
| `Headers.RoundTrip` | parsers/headers_parser/headers_parser.c:29-128 | a printed header section is accepted if and only if it has a field, and is then done exactly at its last LF with the number of fields counted; the empty one is rejected at its first byte |
| `Accept.OnlySections` | parsers/headers_parser/headers_parser.c:29-128 | only input that starts with a well-formed, non-empty header section is accepted |
| `Headers.HeadersParser.FeedByte` | parsers/headers_parser/headers_parser.c:29-60 | the object follows the specification |
| `Buffers.NeverStuck` | utils/buffer/buffer.c:55-64 | a buffer with nothing to read has its whole capacity free |
| `Buffers.AdvanceTwice` | utils/buffer/buffer.c:55-77 | taking bytes in two steps is taking them in one, wherever the rewind happens |
| `Buffers.Buffer.Append` | utils/buffer/buffer.c:46-52 | bytes read go after those pending |
| `Buffers.Buffer.ReadAdvance` | utils/buffer/buffer.c:54-64 | the bytes taken leave, the others stay in order, an empty buffer is rewound |
| `Buffers.Buffer.ReadByte` | utils/buffer/buffer.c:67-77 | the next byte, or 0 and no change |
| `Buffers.Buffer.Compact` | utils/buffer/buffer.c:87-99 | pending bytes move to the front unchanged |
| `Buffers.Buffer.Reset` | utils/buffer/buffer.c:10-14 | nothing pending |
| `Base64.RoundTrip` | utils/base64/base64.c:29-152 | decoding an encoding gives the bytes back, if and only if there were any |
| `Base64.EncodeOfDecode` | utils/base64/base64.c:29-152 | text without padding is the encoding of what it decodes to, line breaks and other bytes aside |
| `Base64.JunkIgnored` | utils/base64/base64.c:106-124 | bytes outside the alphabet can be inserted or deleted anywhere without changing what is decoded |
| `Base64.OlenCovers` | utils/base64/base64.c:36-38 | the allocation covers every symbol, line break and the NUL |
| `Base64.OverflowTest` | utils/base64/base64.c:36-40 | in 64-bit arithmetic the overflow test refuses exactly the lengths whose product with four wraps |
| `Base64.EncodeLength` | utils/base64/base64.c:49-81 | the exact length of the encoding |
| `Base64.EncodeBuffer` | utils/base64/base64.c:29-83 | the buffer holds the encoding and a NUL; null exactly on overflow or lack of memory |
| `Base64.DecodeBuffer` | utils/base64/base64.c:95-152 | the buffer holds the decoding; null exactly when there is none or no memory |
| `Base64.Decode` | utils/base64/base64.c:112-116 | the decoded bytes never exceed what is allocated for them |
| `Base64.BuildTable` | utils/base64/base64.c:101-104 | the decoding table inverts the alphabet and marks every other byte |
| `Selector.CapacityCovers` | utils/selector/selector.c:175-190 | the capacity exceeds the request if and only if the platform can serve it |
| `Selector.RegisterInBounds` | utils/selector/selector.c:396-403 | the access of a registration is inside the table unless the descriptor equals its size |
| `Selector.FullTable` | utils/selector/selector.c:175-190 | a table made for 1024 elements has room for every descriptor |
| `Selector.NextCapacity` | utils/selector/selector.c:175-190 | the loop computes the capacity that the lemmas are about |
| `Selector.FdSelector.EnsureCapacity` | utils/selector/selector.c:246-288 | which of the four outcomes; old entries kept, new ones unused |
| `Selector.FdSelector.NewSelector` | utils/selector/selector.c:322-340 | nothing registered, full-size table, or null without memory |
| `Selector.FdSelector.Register` | utils/selector/selector.c:384-425 | adds the descriptor to the map unless it is there; the two sets and the maximum stay an exact index; the table is overrun if and only if the descriptor equals its size, and never when it has its full size |
| `Selector.FdSelector.Unregister` | utils/selector/selector.c:427-458 | removes it; the index stays exact; which descriptors are outside a smaller table |
| `Selector.FdSelector.SetInterest` | utils/selector/selector.c:460-477 | changes its interest; the index stays exact; which descriptors are outside a smaller table |
| `Selector.FdSelector.ItemsMaxFd` | utils/selector/selector.c:210-222 | the largest registered descriptor, 0 if none, found by looking up to the old maximum only |
| `Selector.FdSelector.UpdateFdset` | utils/selector/selector.c:224-238 | membership of one descriptor in the two sets follows its entry |
| `Keyword.Verdict` | utils/parser/parser_utils.c:73-118 | for every keyword and non-empty input: EQ if and only if they are equal ignoring case, MAYEQ if and only if the input is a proper prefix, NEQ otherwise |
| `Keyword.SearchFindsSuffix` | parsers/sniffer_parser/sniffer_parser.c:147-181 | with a reset at every mismatch, EQ means the input ends with the keyword |
| `Keyword.RowStep` | utils/parser/parser_utils.c:86-109 | each generated row does what the comparison says for every byte |
| `Keyword.BuildTable` | utils/parser/parser_utils.c:73-118 | the loop fills the table with those rows |
| `Keyword.StringParser.Feed` | utils/parser/parser.c:34-65 | the scan of the transitions takes the comparison's step |

## Left out

- Bracketed IPv6 hosts: the parser enters a state of its own from which the model makes no claim.
- Several connections sharing descriptor numbers: one connection is modelled in isolation.
- Client to origin for CONNECT: what is dropped with the read that completes the request line is recorded, but headers that arrive in a later read go to the origin, so the claim is for other methods.
- Credential sniffing, status-code logging and the count of bytes to analyse: they only affect logs.
- Connection metrics and the collection of idle connections: counters and timers with no clean invariant.
- Signals, threads, blocking jobs and the `pselect` call: events are taken as given, guarded by interest.
- The management protocol, its client and server, command-line arguments and the logger: fixed layouts and plain input and output.
- Change of the buffer size while running: the default capacity is kept.
- The text form of an AAAA record: only the address is modelled.
- What a compressed name points at: the offset is stored and never followed; the owner name of a record that ends in a pointer is lost with its first eight bytes, as in the original. Names are images of 256 bytes written round and round.
- `inet_ntop` of IPv6 addresses and `inet_pton` beyond dotted decimal: not needed without bracketed hosts.
- The selector's `handle_close` callback and item data: what a callback does to other connections is not modelled.
- Parsers inside the connection object: there they are values replaced at each byte; their in-place form is proved separately, and that the objects do not share arrays is not part of the connection's proof.
- Error codes: kept in 16 bits; the original's enumeration has none above 505.
- Failover.WalkAnswers: the endless walk is cut off and reported once a full round of the index has found nothing to try.
- Connection.ProxyConnection.AwaitOnReadReady: the endless loop is reported as such instead of being entered.
- Selector.FdSelector.Register: for the descriptor equal to the table's size, where the original overruns the table, the outcome says so and nothing is claimed of what the overrun does.
