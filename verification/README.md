# OverSIP, verified

OverSIP is a SIP proxy written in Ruby and C. This project models four parts of it in Dafny and proves what
they are for:

1. **WebSocket receive path**: the incremental frame decoder (sections 5.2 to 5.5 of RFC 6455), unmasking, the
   table-driven UTF-8 automaton (section 4 of RFC 3629), message reassembly and the frame encoders.
2. **SIP transactions**: the four timed state machines (sections 17.1 and 17.2 of RFC 3261, RFC 6026, section 4 of
   RFC 4320) with their transaction tables, and on top of them the proxy core and serial failover.
3. **Outbound flow tokens** (section 5.3 of RFC 5626): printing and Base64 (section 4 of RFC 4648), the parser
   automaton, the connection table, the direction test of `loose_route`, and the `ov-ob` Contact mangling.
4. **SRV target selection** (RFC 2782), the fiber pool that runs the lookups, and the header work of
   `send_request`, by which every failover target starts from the same request.

## How the model is built

Code that changes state is a class or a method with a loop, as in the source; its contract ties the new state to a
specification function on values, and the properties are lemmas about those functions over every input and every
run. A class offers `View()`, the value its fields amount to.

| file | holds |
|---|---|
| `Bytes`, `Wrappers`, `Decimal`, `Timers`, `ResponseCodes`, `TransactionTable` | octets and XOR, Option, decimal numerals, timer values, the response grammar, a listener's table |
| `Utf8` | the 400-entry table, its automaton, the validator object |
| `WsFrames`, `WsConnection` | the receive path as functions; the objects (buffer, connection, framing, SIP application) |
| `WsCuts`, `WsWire`, `WsReassembly`, `WsSafety`, `WsOutcomes` | cut independence; wire forms; reassembly; UTF-8 safety and codec round trip; what closes a connection and what follows a message |
| `InviteServer`, `NonInviteServer`, `NonInviteClient` | one state machine each, with its object |
| `InviteServerExact`, `NonInviteServerExact`, `NonInviteClientExact` | what each of them sends or tells and when, over every run |
| `Dispatch` | all server transactions of a listener together, and the dispatch of requests to them |
| `InviteClient`, `InviteClientLifetime`, `InviteClientQuiet`, `InviteClientTrace`, `InviteClientTransactions` | the INVITE client machine, three groups of theorems, the object |
| `InviteClientExact`, `InviteClientCancel`, `InviteClientTexts` | what it does with every response and how long its states last; the schedule of its CANCEL; its ACK and CANCEL read back |
| `Retransmissions` | the retransmission schedules in closed form |
| `Failover`, `ProxySpec`, `ProxyUpstream`, `Proxy` | serial failover; the proxied INVITE; what goes upstream event by event; the proxy object (module `ProxyCore`) |
| `Base64`, `FlowGrammar`, `FlowToken`, `FlowParser`, `LooseRoute`, `Mangling`, `UriText` | flow tokens from printing to use; printed URIs read back |
| `Srv`, `SrvTargets` | selection by weight; grouping and randomizing objects |
| `FiberPool` | the pool and its scheduling |
| `Headers`, `RequestHeaders` | the ordered header hash; the aliased header arrays |

Conventions:

- Times are milliseconds. In a run a timer fires at its due time; of several timers due at once any may be first;
  the clock never passes an armed timer (a timely reactor). A response to an INVITE client transaction arrives
  strictly later than the event before it; `do_cancel`, user replies and connection failures may fall on one instant.
- The SIP layer above a WebSocket is a total function of the messages it was handed: it answers with texts and may
  close the connection. User callbacks of the proxy are parameters of the events (keep, drop, drop with a 199;
  abort routing for certain targets). `rand`, `shuffle` and `SecureRandom.hex` are parameters too.
- Ruby's Base64 decoder is modelled as documented: characters outside the alphabet are skipped, `=` ends the text.
- `listed` and the `live` sets say whether a class table holds a transaction; ids are distinct.

## Where the code deviates

The model keeps the code as it is. Each deviation has a lemma with its exact condition, most also one with a run that shows it.

- An oversize continuation leaves `receive_data` without closing: cutting the stream there changes what is handled
  (`WsSafety.StallMakesCutsMatter`). A call stops so exactly when it leaves an open connection with its message
  beyond the limit (`WsCuts.StalledIffOversize`), and the cut matters exactly then (`WsCuts.CutPointExact`).
- A final continuation without payload skips the completeness test: the text delivered can be cut inside a
  character (`WsSafety.IncompleteTextDelivered`, exactly when: `WsSafety.EmptyFinalContinuation`).
- With timer_C at or below timer_B an INVITE client transaction can stay in its table with no timer left
  (`InviteClientLifetime.Stranded`, exactly when: `InviteClientLifetime.EndsIffBBelowC`).
- With timer_F above 32 s a terminated transaction can go on sending CANCEL (`InviteClientQuiet.LeakFromStart`,
  exactly when: `InviteClientQuiet.QuietIffFBelowD`).
- `connection_failed` means not to report a failure after a timeout, but does unless a CANCEL was built
  (`InviteClientTrace.TimeoutThenFailure`, exactly when: `InviteClientTrace.FailureAfterTimeout`).
- A 503 is forwarded as 503 if and only if the caller has canceled and no drop is pending
  (`ProxySpec.ServiceUnavailableIffCanceled`).
- In the `:both_outbound_path` case a Path is inserted and a Record-Route deleted; over several targets the Path
  values pile up (`Headers.SendRestoresIff`, `Headers.PathsPileUp`).
- Weight-zero SRV entries are pushed as whole lists (`Srv.FlatIffNoWeightless`).
- `loose_route` compares the flow token of the Route with the memo `@connection_outbound_flow_token`, which is nil
  until the request was asked for its token: its own flow then counts as an incoming one
  (`LooseRoute.OwnFlowTakenAsIncoming`, exactly when: `LooseRoute.DirectionIffTokenKnown`).
- Stripping `;ov-ob=` also strips values that were there before (`Mangling.StripRestoresIff`).
- A dead fiber replaced while blocks wait lets the newest block overtake them (`FiberPool.DeathOvertakes`, exactly
  when: `FiberPool.PoolOrderIff`).

## Model

| member | source | states |
|---|---|---|
| `Utf8.AcceptsExactlyWellFormed` | ext/websocket_framing_utils/ws_framing_utils.h:14-38 | the 400-byte table automaton ends in ACCEPT if and only if the bytes are a concatenation of the well-formed sequences of section 4 of RFC 3629 |
| `Utf8.WellFormedIffEncoding` | ext/websocket_framing_utils/ws_framing_utils.h:14-38 | the well-formed strings are exactly the encodings of sequences of Unicode scalar values |
| `Utf8.RejectIsSticky` | ext/websocket_framing_utils/ws_framing_utils.h:24-36 | once rejected, no further bytes lead out of REJECT |
| `Utf8.CodepIsTheScalar` | ext/websocket_framing_utils/ws_framing_utils.h:31-38 | decoding the octets of a scalar value accepts at the last octet and not before, with `codep` equal to that value, whatever it held before |
| `Utf8.CodepOfChar` | ext/websocket_framing_utils/ws_framing_utils.h:31-38 | after any one well-formed character `codep` is its scalar value |
| `Utf8.NextMeaning` | ext/websocket_framing_utils/ws_framing_utils.h:14-36 | each table step in terms of the byte ranges of the RFC |
| `Utf8.RunConcat` | ext/websocket_framing_utils/ws_framing_utils_ruby.c:96-120 | validating fragment by fragment with carried state is validating the concatenation |
| `Utf8.NotRejectedIffExtensible` | ext/websocket_framing_utils/ws_framing_utils_ruby.c:90-120 | "valid so far" (true or nil) means exactly that some continuation makes the text well-formed |
| `Utf8.Utf8Validator.Validate` | ext/websocket_framing_utils/ws_framing_utils_ruby.c:96-120 | the loop with its early return leaves the state of the automaton after the whole string and reports valid, incomplete or invalid accordingly |
| `Utf8.Utf8Validator.Reset` | ext/websocket_framing_utils/ws_framing_utils_ruby.c:78-87 | back to ACCEPT |
| `WsFrames.UnmaskTwice` | ext/websocket_framing_utils/ws_framing_utils_ruby.c:45-48 | unmasking twice with the same key is the identity |
| `WsConnection.UnmaskPayload` | ext/websocket_framing_utils/ws_framing_utils_ruby.c:34-53 | the filled array is the payload XORed with the repeated key |
| `WsCuts.CutIndependence` | lib/oversip/websocket/ws_framing.rb:57-349 | however a stream is split into `receive_data` calls, messages, pongs, replies, close status and the whole decoder state are those of one uncut call, unless that call leaves an open connection with its message beyond the limit |
| `WsCuts.CutPointExact` | lib/oversip/websocket/ws_framing.rb:268-293 | for one cut: both ways agree if and only if the connection is not left open with its message beyond the limit at the cut, or less than a frame header is left |
| `WsCuts.StalledIffOversize` | lib/oversip/websocket/ws_framing.rb:284-287 | a call stops at an oversize continuation if and only if it leaves the connection open with the message beyond the limit |
| `WsCuts.TurnPlus` | lib/oversip/websocket/ws_framing.rb:57-207 | one turn of the loop depends only on the bytes it already has |
| `WsSafety.StallMakesCutsMatter` | lib/oversip/websocket/ws_framing.rb:284-287 | on a new connection a message at the limit, a continuation beyond it and a ping: uncut the ping stays unanswered, cut it is answered |
| `WsWire.FrameDecoded` | lib/oversip/websocket/ws_framing.rb:59-207 | a masked frame in any of the three length forms and with any key is decoded to its own FIN bit, opcode and payload |
| `WsWire.FeedIsHandle` | lib/oversip/websocket/ws_framing.rb:57-349 | feeding the bytes of frames handles exactly those frames, in order |
| `WsReassembly.Reassembly` | lib/oversip/websocket/ws_framing.rb:151-293 | for every legal sequence of masked frames with control frames anywhere, the delivered messages are the concatenated payloads of the fragment groups, each ping is answered, and `@msg_sym_opcode` and the message buffer hold the partial message exactly while a group is open |
| `WsReassembly.HandleReassembles` | lib/oversip/websocket/ws_sip_app.rb:34-52 | the same for already decoded frames, from any point inside a group |
| `WsSafety.DeliveredTextIsUtf8` | lib/oversip/websocket/ws_framing.rb:209-293 | for any bytes in any pieces: a delivered text whose final frame had a payload is well-formed UTF-8 as a whole, any other is a beginning of one |
| `WsSafety.EmptyFinalContinuation` | lib/oversip/websocket/ws_framing.rb:268-293 | a final continuation without payload delivers the text as it is, which is UTF-8 if and only if the validator stood in ACCEPT |
| `WsSafety.IncompleteTextDelivered` | lib/oversip/websocket/ws_framing.rb:271-284 | two frames by which a text cut inside a character is delivered |
| `WsSafety.CodecRoundTrip` | lib/oversip/websocket/ws_framing.rb:370-435 | a message written by the encoder, masked with any key and received in any pieces is delivered as that one message |
| `WsWire.MaskedIsWire` | lib/oversip/websocket/ws_framing.rb:370-435 | an encoded frame, masked as section 5.3 of RFC 6455 says, is the wire form of the one-frame message in the shortest length form |
| `WsConnection.EncodeFrame` | lib/oversip/websocket/ws_framing.rb:370-435 | the frame string built step by step is the encoding, for messages of any length |
| `WsConnection.WsFraming.ReceiveBytes` | lib/oversip/websocket/listeners/ws_server.rb:101-142 | data for an open connection is appended and handled, for an ignored one dropped |
| `WsConnection.WsFraming.ReceiveData` | lib/oversip/websocket/ws_framing.rb:57-349 | the loop over `@state` does what the specification of a run says |
| `WsConnection.WsFraming.OneTurn` | lib/oversip/websocket/ws_framing.rb:57-207 | one branch of the `case` |
| `WsConnection.WsFraming.ParseHeader` | lib/oversip/websocket/ws_framing.rb:59-110 | the header checks, with their close status and reason |
| `WsConnection.WsFraming.Check` | lib/oversip/websocket/ws_framing.rb:151-189 | a frame passes if and only if it is in its place in a message and within the size limit; otherwise the connection closes with the first failing test's status and reason |
| `WsFrames.FrameErrorMeaning` | lib/oversip/websocket/ws_framing.rb:151-189 | 1002 is for frames out of place, whatever their size; 1009 only for frames in place that are too big |
| `WsConnection.WsFraming.ProcessText` | lib/oversip/websocket/ws_framing.rb:209-244 | a text frame |
| `WsConnection.WsFraming.ProcessContinuation` | lib/oversip/websocket/ws_framing.rb:268-293 | a continuation frame |
| `WsConnection.WsFraming.ProcessClose` | lib/oversip/websocket/ws_framing.rb:295-336 | a close frame: its reason validated, the connection closed in every case |
| `WsOutcomes.CloseFrameCloses` | lib/oversip/websocket/ws_framing.rb:295-336 | over the bytes received, for a close frame in any length form and with any key: exactly one close frame is sent (1007 if the reason is not UTF-8, otherwise without status), nothing is delivered, what is behind is dropped, and later bytes change nothing |
| `WsOutcomes.BadHeaderCloses` | lib/oversip/websocket/ws_framing.rb:59-90 | RSV bits, an unknown opcode or a missing mask close with 1002, whatever follows |
| `WsOutcomes.GoodHeaderWaits` | lib/oversip/websocket/ws_framing.rb:59-110 | any other header alone changes nothing that the peer or the SIP layer could see |
| `WsOutcomes.HugeFrameCloses` | lib/oversip/websocket/ws_framing.rb:122-139 | a length of 4 GB or more closes with 1008 |
| `WsOutcomes.MisplacedFrameCloses` | lib/oversip/websocket/ws_framing.rb:151-189 | the bytes of a frame out of place close with 1002, of one in place but too big with 1009, its payload unseen |
| `WsOutcomes.BadTextCloses` | lib/oversip/websocket/ws_framing.rb:209-293 | a text frame or continuation after which no continuation makes the text UTF-8, or a final one that leaves it incomplete, closes with 1007 and the message is not delivered |
| `WsOutcomes.BigMessageCloses` | lib/oversip/websocket/ws_framing.rb:230-262 | a first frame beyond the message limit closes with 1009 |
| `WsOutcomes.MessageAnswered` | lib/oversip/websocket/ws_framing.rb:209-293 | the final frame of a well-formed message: one delivery of all its payloads, then the SIP layer's replies in their order, then its close frame if it closed |
| `WsConnection.WsSipApp.ReceivePayloadData` | lib/oversip/websocket/ws_sip_app.rb:34-41 | the payload is appended; false exactly beyond the size limit |
| `WsConnection.WsSipApp.MessageDone` | lib/oversip/websocket/ws_sip_app.rb:44-52 | the message is handed over once, its replies are sent, the buffer is empty after |
| `WsConnection.Connection.Close` | lib/oversip/websocket/listeners/connection.rb:39-48 | one close frame at most, the shared buffer cleared with it, later data ignored |
| `InviteServer.LeavesTableInTime` | lib/oversip/sip/server_transaction.rb:24-154 | in every run an INVITE server transaction is in its table exactly while it is not terminated, always has a timer due that ends it, and is gone after 182 + 32 + 5 s |
| `InviteServer.TerminatedIsFinal` | lib/oversip/sip/server_transaction.rb:41-112 | `:terminated` is never left and nothing is sent from then on; timer G is off |
| `InviteServer.UpstreamGrammar` | lib/oversip/sip/server_transaction.rb:114-154 | whatever is replied and in whatever order events come, new responses are 1xx* then 2xx* or one 3xx-6xx; every repetition repeats the last one; after a 3xx-6xx only its bytes follow |
| `InviteServer.ValidResponseIffGateOpens` | lib/oversip/sip/server_transaction.rb:156-188 | `valid_response?` is true exactly when `receive_response` will let the response through |
| `InviteServer.InviteServerTransaction.constructor` | lib/oversip/sip/server_transaction.rb:26-39 | listed, timer C2 running, 100 sent |
| `InviteServer.InviteServerTransaction.ReceiveResponse` | lib/oversip/sip/server_transaction.rb:114-154 | the object's gate is the specified one; a refusal starts timer G over UDP alone, and timer H |
| `InviteServer.InviteServerTransaction.RequestReply` | lib/oversip/sip/request.rb:40-104 | nothing is sent or remembered unless the transaction lets it through |
| `InviteServer.InviteServerTransaction.ReceiveAck` | lib/oversip/sip/server_transaction.rb:83-101 | ACK confirms, over UDP with timer I; other table entries stay |
| `InviteServer.InviteServerTransaction.RetransmitLastResponse` | lib/oversip/sip/server_transaction.rb:17-19 | the last response once more |
| `InviteServer.InviteServerTransaction.TimerFires` | lib/oversip/sip/server_transaction.rb:41-81 | the blocks of timers C2, G, H, I and L |
| `InviteServerExact.ReplySent` | lib/oversip/sip/server_transaction.rb:114-154 | a response is sent and remembered if and only if the state takes it; a final one decides the next state |
| `InviteServerExact.RefusalSchedule` | lib/oversip/sip/server_transaction.rb:41-101 | in every run: timer G runs over UDP in `:completed` and nowhere else, due 0.5, 1.5, 3.5, 7.5, 11.5 ... s after the refusal until the ACK or timer H, at most 10 times; what is sent again is exactly one response for each of its turns and for each INVITE received again |
| `InviteServerExact.StatesLast` | lib/oversip/sip/server_transaction.rb:41-154 | in every run: `:proceeding` without final response lasts exactly 182 s, `:accepted` and unacknowledged `:completed` exactly 32 s, `:confirmed`, over UDP only, exactly 5 s; the state follows the diagram of RFC 3261 and RFC 6026; an INVITE received again is answered with the last response |
| `NonInviteServer.LeavesTableInTime` | lib/oversip/sip/server_transaction.rb:191-268 | gone after 64 s in every run; at most one final response, then only its repetitions |
| `NonInviteServer.TerminatedIsFinal` | lib/oversip/sip/server_transaction.rb:231-268 | `:terminated` is never left, nothing is sent from then on |
| `NonInviteServer.NonInviteServerTransaction.ReceiveResponse` | lib/oversip/sip/server_transaction.rb:236-268 | the object's gate is the specified one |
| `NonInviteServer.NonInviteServerTransaction.TimerFires` | lib/oversip/sip/server_transaction.rb:205-229 | the blocks of INT1 (100 if nothing was answered), INT2 and J |
| `NonInviteServerExact.ReplySent` | lib/oversip/sip/server_transaction.rb:236-268 | every response up to the first final one is sent and remembered, none later |
| `NonInviteServerExact.StatesLast` | lib/oversip/sip/server_transaction.rb:191-268 | in every run: 100 is sent exactly 5 s after the start if nothing was answered by then; without final response the end comes exactly 32 s after the start, with one 32 s after it over UDP and at once otherwise, and for no other reason; a request received again is answered with the last response, if any |
| `Dispatch.EachLivesItsOwnLife` | lib/oversip/sip/message_processor.rb:144-209 | however requests, replies and timers of any number of server transactions interleave, each transaction is what a legal run of its own machine makes of it |
| `Dispatch.TablesStayYoung` | lib/oversip/sip/message_processor.rb:144-209 | at any time the tables hold INVITE transactions at most 219 s old and others at most 64 s old |
| `Dispatch.RunAnswers` | lib/oversip/sip/message_processor.rb:176-193 | every CANCEL is answered exactly once, and a core is canceled only right after a 200 |
| `Dispatch.RequestsFindTheirTransaction` | lib/oversip/sip/message_processor.rb:144-208 | in any run, a request whose transaction is listed is taken by it (a retransmission repeats the last response, an ACK confirms a refusal) and reaches no user code; any other is handed to user code once; no other transaction changes |
| `Dispatch.MessageProcessor.CheckTransaction` | lib/oversip/sip/message_processor.rb:144-208 | a retransmission, ACK or CANCEL reaches the listed transaction with its branch id and no other, a retransmission moving it to the connection it came by; the rest is left to the user's callback |
| `InviteClientLifetime.LeavesTableInTime` | lib/oversip/sip/client_transaction.rb:86-178 | with timer_B below timer_C: in its table exactly while not terminated, some one-shot timer always due, gone after timer_C + max(32 s, timer_F + 4 s) |
| `InviteClientLifetime.EndsIffBBelowC` | lib/oversip/sip/client_transaction.rb:140-158 | every run ends in time if and only if timer_B is below timer_C |
| `InviteClientLifetime.Stranded` | lib/oversip/sip/client_transaction.rb:150-158 | timer C firing in `:calling` leaves the transaction listed with no timer at all |
| `InviteClientQuiet.QuietIffFBelowD` | lib/oversip/sip/client_transaction.rb:348-381 | in every terminated state of every run timers A and E are off, if and only if timer_F is at most 32 s |
| `InviteClientQuiet.RunQuiet` | lib/oversip/sip/client_transaction.rb:131-178 | the invariant behind it: nothing that retransmits survives termination |
| `InviteClientQuiet.LeakFromStart` | lib/oversip/sip/client_transaction.rb:348-369 | for every timer_F above 32 s, a run that ends terminated with the CANCEL retransmission running |
| `InviteClientTrace.ClientTrace` | lib/oversip/sip/client_transaction.rb:184-346 | for every interleaving: the CANCEL is first sent at most once and only after a provisional response; the core gets 1xx other than 100, then 2xx* or one 3xx-6xx; each 3xx-6xx not preceded by a 2xx is acknowledged at once, always with the same bytes |
| `InviteClientExact.EveryResponseHeeded` | lib/oversip/sip/client_transaction.rb:184-255 | over every run, on the history alone: each 1xx other than 100 before any final response and each 2xx before any 3xx-6xx is handed to the core at once; a 3xx-6xx that is the first final response is acknowledged, then handed to the core; what the core gets, and the state of a listed transaction, are functions of the codes received; in `:proceeding` a CANCEL that was built is out |
| `InviteClientExact.StatesLast` | lib/oversip/sip/client_transaction.rb:131-178 | over every run: timer B is due exactly timer_B and timer C timer_C after the start, timer A runs over UDP alone; `:completed` (UDP only) and `:accepted` last exactly 32 s; exactly what takes a listed transaction out of its table |
| `InviteClientExact.EventActs` | lib/oversip/sip/client_transaction.rb:131-178 | what each timer, CANCEL and failure sends and tells: timer B a timeout, timer C a CANCEL at once or remembered and an INVITE timeout |
| `InviteClientCancel.CancelSchedule` | lib/oversip/sip/client_transaction.rb:339-385 | over every run: a transmitted CANCEL is repeated, over UDP alone, 0.5, 1.5, 3.5, 7.5, 11.5 ... s after it, timer F is due timer_F after it, and its first answer stops both and ends the transaction 4 s later |
| `InviteClientTexts.AckReadsBack` | lib/oversip/sip/client_transaction.rb:282-306 | an ACK read back field by field: the INVITE's top Via, Routes, From, Call-ID and CSeq number with the method ACK, and the response's To tag unless the INVITE was in a dialog |
| `InviteClientTexts.CancelReadsBack` | lib/oversip/sip/client_transaction.rb:312-341 | a CANCEL read back field by field: the INVITE's top Via, Routes, From, To, Call-ID and CSeq number with the method CANCEL, and the Reasons |
| `InviteClientTrace.FailureAfterTimeout` | lib/oversip/sip/client_transaction.rb:257-280 | in every run, after a timeout was told the core is told of exactly those connection and TLS failures that happen while no CANCEL has been built |
| `InviteClientTrace.TimeoutThenFailure` | lib/oversip/sip/client_transaction.rb:257-269 | a run in which the core is told of a timeout and then of a connection failure |
| `InviteClientTransactions.InviteClientTransaction.constructor` | lib/oversip/sip/client_transaction.rb:86-129 | sent, listed, timers A (UDP), B and C running |
| `InviteClientTransactions.InviteClientTransaction.ReceiveResponse` | lib/oversip/sip/client_transaction.rb:184-255 | the object's response handling is the specified one; before a final response every 1xx but 100 and every 2xx is told at once, a 3xx-6xx acknowledged and then told |
| `InviteClientTransactions.InviteClientTransaction.CancelRequest` | lib/oversip/sip/client_transaction.rb:312-346 | built once; sent at once in `:proceeding`, kept otherwise |
| `InviteClientTransactions.InviteClientTransaction.TransmitAck` | lib/oversip/sip/client_transaction.rb:282-308 | built once, the same string sent every time |
| `InviteClientTransactions.InviteClientTransaction.ReceiveResponseToCancel` | lib/oversip/sip/client_transaction.rb:371-381 | stops timers E and F and ends the transaction 4 s later; raises exactly when no CANCEL was sent before |
| `InviteClientTransactions.InviteClientTransaction.ConnectionDown` | lib/oversip/sip/client_transaction.rb:257-280 | a connection or TLS failure |
| `InviteClientTransactions.InviteClientTransaction.TimerFires` | lib/oversip/sip/client_transaction.rb:131-178 | the blocks of timers A, B, C, D and M and of the CANCEL's E and F |
| `NonInviteClient.LeavesTableInTime` | lib/oversip/sip/client_transaction.rb:461-542 | gone timer_F + 5 s after its start in every run; timer E off once completed; 1xx other than 100 and at most one final response told to the core |
| `NonInviteClient.TerminatedIsFinal` | lib/oversip/sip/client_transaction.rb:461-558 | `:terminated` is never left and timer E stays off |
| `NonInviteClient.NonInviteClientTransaction.ReceiveResponse` | lib/oversip/sip/client_transaction.rb:500-542 | the object's response handling is the specified one |
| `NonInviteClient.NonInviteClientTransaction.TimerFires` | lib/oversip/sip/client_transaction.rb:461-489 | the blocks of timers E, F and K |
| `NonInviteClientExact.EveryAnswerTold` | lib/oversip/sip/client_transaction.rb:500-542 | in every run the core is told exactly the responses received up to the first final one, 100 apart |
| `NonInviteClientExact.StatesLast` | lib/oversip/sip/client_transaction.rb:461-558 | in every run: without final response the end comes exactly timer_F after the start, timer E running over UDP alone; with one 5 s later over UDP and at once otherwise; a failure ends it too, nothing else does |
| `Retransmissions.InviteSchedule` | lib/oversip/sip/client_transaction.rb:131-148 | the INVITE is retransmitted T1, 3 T1, 7 T1 ... after its start and never past timer_B: at most 7 transmissions by default |
| `Retransmissions.RequestSchedule` | lib/oversip/sip/client_transaction.rb:461-481 | other requests 0.5, 1.5, 3.5, 7.5, 11.5 ... s after the start until a response, never faster after one, never past timer_F: at most 11 transmissions by default |
| `ProxySpec.ProxiedInviteGrammar` | lib/oversip/sip/proxy.rb:121-174 | across any run of a proxied INVITE, with failover, 503s, timeouts, cancels and callbacks, the new responses upstream are 1xx* then 2xx* or one 3xx-6xx, whose bytes every later transmission repeats |
| `ProxySpec.ServiceUnavailableStaysInside` | lib/oversip/sip/proxy.rb:121-154 | a 503 reaches the caller as new response only after the caller canceled |
| `ProxySpec.ServiceUnavailableIffCanceled` | lib/oversip/sip/proxy.rb:132-153 | whatever the callbacks do, a 503 received while proceeding is passed on as 503 if and only if the call was canceled and no drop is pending |
| `ProxyUpstream.ResponseGoesUp` | lib/oversip/sip/proxy.rb:121-154 | a server's response of any code, unless it starts the failover, goes upstream as it is, an uncanceled 503 as 500, after at most the 199 of a callback, if and only if the server transaction takes it and no drop is pending or asked for |
| `ProxyUpstream.FailoverAfter503` | lib/oversip/sip/proxy.rb:132-141 | a 503 that starts the failover sends nothing while the next target is usable, and goes up as 500 when none is left |
| `ProxyUpstream.NextTargetUpstream` | lib/oversip/sip/proxy.rb:286-308 | another target: nothing upstream; none left: the reason goes up, a full 503 as 500 |
| `ProxyUpstream.TimeoutUpstream` | lib/oversip/sip/proxy.rb:167-174 | 408 exactly while proceeding with no drop pending or asked for; the next response of the server is dropped |
| `ProxyUpstream.CancelAndDns` | lib/oversip/sip/proxy.rb:156-163 | a CANCEL sends nothing upstream itself; a failed resolution is reported by the same rule as a response |
| `ProxySpec.EachTargetOnceInOrder` | lib/oversip/sip/client.rb:307-377 | from a resolution on, over any outcomes, targets are visited once each and in list order, and with those remaining make up the list (or a beginning of it after an abort) |
| `Failover.TryNextInOrder` | lib/oversip/sip/client.rb:332-377 | one call with its mutual recursion: only blacklisted targets are skipped, it stops at the first usable one, and reports no more targets only when none remains or routing was aborted, with the right reason |
| `Failover.FailoverClient.RFC3263Succeeded` | lib/oversip/sip/client.rb:307-329 | a new resolution starts from the first target |
| `Failover.FailoverClient.TryNextTarget` | lib/oversip/sip/client.rb:332-351 | the object's recursion, terminating with the targets left as measure |
| `Failover.FailoverClient.UseTargetNow` | lib/oversip/sip/client.rb:354-377 | blacklist, callbacks and abort of one target |
| `ProxyCore.ProxyObject.ReceiveServerResponse` | lib/oversip/sip/proxy.rb:121-153 | the object's response handling is the specified one; with no drop and no 503, what the server transaction takes is sent |
| `ProxyCore.ProxyObject.ReceiveCancel` | lib/oversip/sip/proxy.rb:156-163 | canceled from then on; a callback may drop the next response |
| `ProxyCore.ProxyObject.TimerCExpired` | lib/oversip/sip/proxy.rb:167-174 | 408 unless dropped, and the next response ignored |
| `ProxyCore.ProxyObject.NoMoreTargetsLeft` | lib/oversip/sip/proxy.rb:286-308 | the last response forwarded (503 as 500) or one generated, unless dropped |
| `ProxyCore.ProxyObject.RunCallbacks` | lib/oversip/sip/proxy.rb:6-17 | dropping, with a 199 for a refusal when asked for |
| `Base64.RoundTrip` | lib/oversip/sip/core.rb:192-201 | decoding what `strict_encode64` wrote gives the bytes back, for every byte string |
| `FlowToken.TokenDecoded` | lib/oversip/sip/transport_manager.rb:90-100 | after removing `_` and putting back `=`, decoding a UDP token gives the text it was made from |
| `FlowToken.TokenDecidesFlow` | lib/oversip/sip/core.rb:100-107 | two UDP tokens are equal if and only if address and port are |
| `FlowToken.TokenAlphabet` | lib/oversip/sip/core.rb:192-201 | the token of an IPv4 or IPv6 flow holds neither `+` nor `/`: it lies in `[_\-0-9A-Za-z]+` |
| `FlowGrammar.PortsExactly` | ext/utils/outbound_utils.c:180-396 | the port states accept exactly the numerals of 1..65535 of at most five digits, four if they begin with a zero |
| `FlowGrammar.AcceptsExactlyAddresses` | ext/utils/outbound_utils.c:60-500 | the IPv4 states accept exactly four canonical octets 0..255, an underscore and a port |
| `FlowParser.ParseFlowToken` | ext/utils/outbound_utils.c:30-517 | the scanning loop with its marks and `finished` flag returns the address and port of an accepted text, and refuses the others |
| `FlowParser.FlowRoundTrip` | lib/oversip/sip/transport_manager.rb:90-114 | `get_outbound_connection` recovers the address and port that were encoded if and only if the port is in 1..65535 |
| `FlowParser.FoundFlowsAreAddresses` | lib/oversip/sip/transport_manager.rb:90-106 | whatever token a peer sends, an IPv4 flow found by it is a canonical address and a port in range |
| `FlowParser.TransportManager.GetOutboundConnection` | lib/oversip/sip/transport_manager.rb:90-114 | UDP tokens are decoded, others looked up |
| `FlowParser.TransportManager.AddOutboundConnection` | lib/oversip/sip/transport_manager.rb:117-121 | the new token finds the connection; no other token, UDP ones included, finds anything else than before |
| `FlowParser.TransportManager.DeleteOutboundConnection` | lib/oversip/sip/transport_manager.rb:124-126 | the token finds nothing any more, others as before |
| `Decimal.StrToInt` | ext/common/c_util.h:16-29 | the digit loop computes the value of a numeral of any length, wrapped to the 32 bits of the C `int` |
| `Decimal.TextIsDigits` | ext/common/c_util.h:16-29 | reading a printed number gives it back |
| `LooseRoute.Request.LooseRoute` | lib/oversip/sip/core.rb:42-145 | exactly the own prefix is taken off routes and header, the return value tells what is left; outgoing Outbound never for in-dialog requests or connections this server opened, otherwise when forced or for a direct request with one of the three signs; incoming Outbound exactly for one or two Routes, all own, the last with `ovid` and another flow's token |
| `LooseRoute.Request.AsksForOutbound` | lib/oversip/sip/core.rb:73-91 | the test of both callers, branch by branch |
| `LooseRoute.Request.OutgoingOutboundRequested` | lib/oversip/sip/core.rb:163-187 | what `loose_route` found, and without it the same test with no Route to count |
| `LooseRoute.Request.FixNat` | lib/oversip/sip/core.rb:152-160 | forces Outbound for direct initial requests that can use it, and for no others |
| `LooseRoute.Request.ConnectionOutboundFlowToken` | lib/oversip/sip/core.rb:192-201 | the memoised token of the request's own flow, UDP or connection |
| `LooseRoute.DirectionIffTokenKnown` | lib/oversip/sip/core.rb:95-110 | over any transports, the direction of a flow is told rightly if and only if the request was asked for its token before, or the flows differ |
| `LooseRoute.TokenOfOneFlow` | lib/oversip/sip/core.rb:192-201 | two requests have the same token if and only if they came by the same flow |
| `LooseRoute.OwnFlowTakenAsIncoming` | lib/oversip/sip/core.rb:95-110 | a request whose own flow is taken for an incoming one |
| `Mangling.StripRestoresIff` | lib/oversip/modules/outbound_mangling.rb:18-27 | stripping a Contact gives back what would have been printed without the parameter, if and only if nothing else matches and the token ends with the parameter |
| `Mangling.SetThenDel` | lib/oversip/sip/uri.rb:84-99 | a new parameter goes last; deleting it yields its value and restores the others |
| `Mangling.StripToken` | lib/oversip/modules/outbound_mangling.rb:24-27 | the global substitution works on both sides of the token independently |
| `Mangling.UdpTokenIsToken` | lib/oversip/modules/outbound_mangling.rb:18-27 | every UDP flow token is matched as a whole |
| `Mangling.Uri.ToS` | lib/oversip/sip/uri.rb:147-179 | the memoising printer, with its loop over the parameters |
| `UriText.PrintReadsBack` | lib/oversip/sip/uri.rb:147-179 | reading a printed SIP URI gives back its scheme, user, host, port, parameters in order, and headers |
| `Mangling.Uri.SetParam` | lib/oversip/sip/uri.rb:84-89 | parameter set, memo outdated |
| `Mangling.Uri.DelParam` | lib/oversip/sip/uri.rb:91-99 | parameter deleted and returned |
| `Mangling.AddOutboundToContact` | lib/oversip/modules/outbound_mangling.rb:9-31 | added for the first target, left alone for later ones |
| `Mangling.Extraction.ExtractOutboundFromRuri` | lib/oversip/modules/outbound_mangling.rb:33-53 | the parameter is removed in any case and used only while no Route has asked for a flow |
| `Mangling.ExtractMangled` | lib/oversip/modules/outbound_mangling.rb:33-53 | a request for a mangled URI: the token added is the one extracted, and the URI prints as without it |
| `Srv.ExactWeighting` | lib/oversip/sip/rfc3263.rb:36-52 | every draw selects one entry, and entry i is selected by exactly weight_i of the draws |
| `Srv.OrderPermutes` | lib/oversip/sip/rfc3263.rb:36-55 | the recursion emits every entry exactly once |
| `Srv.EveryOrderPossible` | lib/oversip/sip/rfc3263.rb:36-55 | with positive weights every order of the entries is the outcome of some draws |
| `Srv.EveryTargetOnce` | lib/oversip/sip/rfc3263.rb:18-55 | whatever is drawn, every resolved target comes out exactly once |
| `Srv.SameTargetsEveryTime` | lib/oversip/sip/client.rb:247-326 | a cached result always yields a permutation of the same targets |
| `Srv.GroupsInOrder` | lib/oversip/sip/rfc3263.rb:21-33 | priority groups come whole and in order |
| `Srv.PositiveBeforeZero` | lib/oversip/sip/rfc3263.rb:28-30 | in a group of several, entries with a positive weight come before those without |
| `Srv.FlatIffNoWeightless` | lib/oversip/sip/rfc3263.rb:25-30 | the list holds only targets if and only if no group of several entries has one of weight zero |
| `SrvTargets.GroupRecords` | lib/oversip/sip/rfc3263.rb:519-543 | the sparse array and its filtering give the groups, a single group of one entry its plain targets, none nil |
| `SrvTargets.GroupsAscending` | lib/oversip/sip/rfc3263.rb:522-534 | each group is one whole priority, priorities strictly ascending |
| `SrvTargets.ResolvedThenRandomized` | lib/oversip/sip/rfc3263.rb:519-534 | from the records to the randomized list every resolved target is kept once |
| `SrvTargets.RandomizeEntries` | lib/oversip/sip/rfc3263.rb:36-55 | deletion in place with recursion empties the array and appends the entries in the drawn order |
| `SrvTargets.TakeDrawn` | lib/oversip/sip/rfc3263.rb:41-52 | the loop finds and removes the entry the number falls on |
| `SrvTargets.Randomize` | lib/oversip/sip/rfc3263.rb:21-34 | the list is the specified one and the receiver, cached or not, is unchanged |
| `SrvTargets.FlattenKeepsTargets` | lib/oversip/sip/rfc3263.rb:67-80 | joining several resolutions keeps every target |
| `FiberPool.PoolConserves` | lib/oversip/fiber_pool.rb:9-53 | in every run of a pool, deaths included: idle plus busy fibers is the initial count, no fiber is both, every block spawned has started once or waits once |
| `FiberPool.PoolWithoutDeaths` | lib/oversip/fiber_pool.rb:9-53 | while no fiber of a pool dies, blocks start in spawn order and wait only when no fiber is idle |
| `FiberPool.PoolOrderIff` | lib/oversip/fiber_pool.rb:9-53 | spawn order is kept exactly in the runs where no dead fiber is replaced while blocks wait |
| `FiberPool.LastIdleFirst` | lib/oversip/fiber_pool.rb:18-53 | with no block waiting, the fiber that finished last runs the next block, and replacements of dead fibers come behind the idle ones |
| `FiberPool.DeathOvertakes` | lib/oversip/fiber_pool.rb:37-47 | a run in which the third block overtakes the second |
| `FiberPool.FiberPool.constructor` | lib/oversip/fiber_pool.rb:9-16 | count idle fibers |
| `FiberPool.FiberPool.Spawn` | lib/oversip/fiber_pool.rb:35-53 | the dead replaced, then the first idle fiber resumed or the block queued |
| `FiberPool.FiberPool.BlockEnds` | lib/oversip/fiber_pool.rb:18-29 | the next waiting block, or the fiber to the front of the idle list |
| `Headers.SendRestoresIff` | lib/oversip/sip/client_transaction.rb:396-459 | `send_request` leaves the ordered header hash as found if and only if the case is not `:both_outbound_path` |
| `Headers.SentValues` | lib/oversip/sip/client_transaction.rb:396-459 | what goes on the wire: the Via on top, the second Record-Route or Path of each of the nine cases, all other headers as they were |
| `Headers.TargetsStartEqual` | lib/oversip/sip/client_transaction.rb:86-122 | so every failover target starts from the same headers, under the same condition |
| `Headers.PathsPileUp` | lib/oversip/sip/client_transaction.rb:438-453 | in that case the Path values of all targets remain, the latest first |
| `Headers.InsertDeleteIff` | lib/oversip/sip/message.rb:128-145 | inserting and deleting on top restores the hash, order included, unless the header stood there without value |
| `RequestHeaders.Request.InsertHeader` | lib/oversip/sip/message.rb:136-145 | an existing array gets the value in place, a new name goes to the front of the hash |
| `RequestHeaders.Request.DeleteHeaderTop` | lib/oversip/sip/message.rb:128-132 | the top value is shifted off in place, the last one takes its name along; dropping the only Via value is what ends the aliasing |
| `RequestHeaders.Request.SendRequest` | lib/oversip/sip/client_transaction.rb:396-459 | the object's header work; the array that replies are built from is the same object with the same values in every case |
| `RequestHeaders.Request.Header` | ext/sip_parser/sip_parser_ruby.c:166-208 | a field goes behind the values of its name or into a new array, which for the first Via is `@hdr_via` too: one object from then on |
| `RequestHeaders.Request.Parse` | ext/sip_parser/sip_parser_ruby.c:166-208 | after any list of fields every name has one array with its values in order, and `@hdr_via` is the Via array if there is any |

## Left out

- IPv6 states of the flow token automaton: one sink state stands for them, and `Parse` then answers `ByV6States`.
- FlowParser.TransportManager.GetOutboundConnection: of an IPv6 token it says only that the IPv6 states decide, because they are left out.
- FlowParser.FlowRoundTrip: IPv4 addresses only, for the same reason; `FlowToken.TokenDecoded` holds for IPv6 text too.
- Decimal.StrToInt: C leaves the overflow of an `int` undefined; the model takes it to wrap around.
- LooseRoute.Request.ConnectionOutboundFlowToken: asking a request that came by a connection this server opened raises in the Ruby code; here the answer is None.
- Sockets, TLS, EventMachine, udns and syslog: sends are logs, DNS answers and timer firings are inputs.
- The SIP message grammar and URI parser: requests, responses, routes and URIs come parsed.
- The HTTP handshake of WebSocket, STUN, HAProxy, configuration, launcher, certificates.
- `Query#resolve` apart from the grouping of SRV records: a tree over foreign DNS answers with results of varied shape.
- The keep-alive ping timer of a WebSocket, and the socket's refusal to send once it is gone.
- The limit on a message is compared after appending; what a connection stuck beyond the limit does later is only what `WsCuts.CutPointExact` says of it.
- `Ack2xxForwarder`: it sends once and keeps no state.
- The texts of replies beyond status line and rest of message; ACK and CANCEL have a fixed User-Agent.
- InviteClientTexts.AckReadsBack: values without a carriage return, so of unfolded header fields; likewise InviteClientTexts.CancelReadsBack.
- UriText.PrintReadsBack: SIP and SIPS URIs whose parts hold no delimiters; the user part is the escaped one.
- The choice of routing headers in `add_routing_headers`: only what `send_request` adds and takes off.
- `to_s` of a request whose From, To or Contact was modified: it rewrites those headers, so the restoring theorems are about unmodified ones.
- `MultiTargets#flatten` with its flag unset returns itself; only the flattening branch is modelled.
- SrvTargets.Randomize: independence and uniformity of `rand` and `shuffle` are not modelled, only which draws lead where.
- `process_response`: the lookup of client transactions is only the test for being listed.
- Blocks that call `spawn` while running are events between the block's start and its end.
- Between the mangling of a Contact and the request for it the URI is printed and parsed again by other parties: `Mangling.ExtractMangled` starts from a URI with the same parts.
- Names of URI parameters and headers are compared as they are: the source folds their case first.
