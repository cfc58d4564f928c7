# A verified model of the C++ web utilities library

This project models five stateful parts of the library and proves what they promise, or, where the
code does not keep the obvious promise, exactly when it does.

* **The lock-free ring** (`RingProtocol.dfy`, `RingSafety.dfy`, `RingRetry.dfy`): every access to shared memory in `put` and `get` is one
  step, and the steps of any number of producers and one consumer interleave freely under sequential
  consistency. Items are copied word by word, so a half-written item is a state of the model.
  `RingBuffer.dfy` is the same ring as a class for calls that do not overlap; both connections use it.
* **The HTTP byte stream** (`HttpFraming.dfy`, `HttpStream.dfy`, `HttpRequests.dfy`, `TcpClient.dfy`,
  `SendQueue.dfy`, `HttpResponse.dfy`, `HttpHeader.dfy`): requests put together from arbitrary chunks,
  responses sent in partial writes, and what a reader makes of their headers.
* **The WebSocket engine** (`WsFrames.dfy`, `WsParser.dfy`, `WsConnection.dfy`, `WsStream.dfy`,
  `WsLifecycle.dfy`, `WsAnswers.dfy`, `WebSocket.dfy`): an encoder and an independent decoder after sections
  5.2 and 5.3 of RFC 6455, the incremental parser with its growing buffer, the receive loop, the connection
  states, whole lives of a connection, and what it answers to its peer and its timer.
* **JSON** (`JsonText.dfy` to `JsonRoot.dfy`): escaping, the finders, the whitespace pass, the printer,
  the parser, the tree of nodes on the heap with deep copy, and where a change of it is found.
* **Hashes and Base64** (`HashPadding.dfy`, `Words.dfy`, `Sha1.dfy`, `Sha256.dfy`, `Md5.dfy`,
  `Base64.dfy`): the chunk loops against FIPS 180-4, RFC 1321 and section 4 of RFC 4648. Where the
  constants come from is in `HashConstants.dfy`; `Sha1Example.dfy`, `Sha256Example.dfy` and `Md5Example.dfy`
  compute one published digest each, round by round, which pins down every other part of the standard forms.

Code that changes state in the original is a class or a loop here. Each such method is proved equal to
a function on values (`Receive`, `ReceiveLoop`, `Frame`, `Digest`, `ParseObject`, `Print`, ...), and
the theorems are proved about these functions: over every cutting of a stream, every interleaving,
every sequence of calls, every tree.

What the code does not keep, stated with its exact condition:

* `put` moves the tail before it tests for a full ring. A compare-and-swap won with all usable slots
  outstanding makes the ring look empty (`FullWinLooksEmpty`), and `PutAloneExact` says when an undisturbed
  call meets that. On a connection this throws away every queued buffer (`TurnConserves`, `StepBalance`,
  `HttpOverflowLoses`). Among several threads such a win is not yet a failure: a `get` that is under way may
  give a slot back before the winner makes its late test (`FullWinDuringGet`). `RingSafety.StepIsSafe` and
  `HarmExactly` have the exact condition over every interleaving: the harm is done when, with all slots
  outstanding, the late test of `utils/MPSCRingBuffer.h:73` fires or one more swap is won.
* A retry that reads a stale tail may report an overflow of an empty ring (`StaleRetryRefusesEmptyRing`).
* Anything behind a masked WebSocket frame without payload, or with an opcode that is not handled, makes
  the receive loop spin for ever: `LoopAlwaysEnds` has the exact condition, over streams of all frames,
  `WsStream.ChunkIndependence` the exact condition of delivery, `StuckForever` what never ending means.
* Both regular expressions of the HTTP framing search everything received, not only the header
  (`HttpStream.ChunkIndependence` has the resulting condition).
* An empty buffer stops the send loop for good, and every response ends with one
  (`EmptyBufferStalls`, `NothingPassesResponse`).
* JSON keys are printed without escaping and number texts unchecked (`PrintParses`, `RoundTripExactly`); "-5" is read
  as UInt and "5" as Int (`ExactRoundTrip`); a string that is assigned is unescaped (`AssignedStringKept`).
* The last Base64 character takes its low bits from behind the input (`StandardExactly`).
* The comment of `assign` in `json/JSON.cpp:47-49` says that an assigned JSON only refers to the other
  tree; the code copies it, and the model follows the code.

## Model

| member | source | states |
|---|---|---|
| RingProtocol.StepKeepsInv | utils/MPSCRingBuffer.h:60-88 | a step of a producer or the consumer keeps slot ownership, the order of items and the window of outstanding slots if and only if it does not win the swap on a full ring |
| RingProtocol.RunKeepsInv | utils/MPSCRingBuffer.h:60-88 | so does every interleaving of any length without such a win |
| RingSafety.StepIsSafe | utils/MPSCRingBuffer.h:60-88 | from every safe state, at most one full win ahead of the consumer, a step leads to a safe state if and only if it is not the late test firing with all slots outstanding, or one more swap won then |
| RingSafety.HarmExactly | utils/MPSCRingBuffer.h:60-88 | a run from a safe state has no such step if and only if in none of its states an overflow was reported after the tail was moved or more slots than there are are outstanding |
| RingSafety.RunIsSafe | utils/MPSCRingBuffer.h:60-88 | runs without such a step stay safe, at any length |
| RingSafety.NoFullWinIsHarmless | utils/MPSCRingBuffer.h:60-88 | runs without any full win are among them |
| RingSafety.FifoSafety | utils/MPSCRingBuffer.h:60-88 | in every interleaving without such a step, full wins or not, what `get` returned is a prefix, word for word, of the items in the order of the won swaps, and no late test ever fired |
| RingSafety.ExclusiveSlots | utils/MPSCRingBuffer.h:62-86 | in every state such a run reaches each slot between head and tail belongs to exactly one producer, or is published and complete, or is being given back; the others are invalid and owned by nobody |
| RingSafety.FullWinDuringGet | utils/MPSCRingBuffer.h:66-86 | a full win at any time while `get` copies an item or gives its slot back does no harm when `get` is done before the winner makes its late test |
| RingProtocol.LateTestPasses | utils/MPSCRingBuffer.h:73 | the full test behind the swap is never true for a slot won with room |
| RingProtocol.GetReturnsOldest | utils/MPSCRingBuffer.h:80-88 | a call of `get` that nobody interrupts while the oldest outstanding item is published returns that item |
| RingProtocol.GetReturnsOldestAmongPuts | utils/MPSCRingBuffer.h:80-88 | so does a call whose steps lie anywhere among the steps of producers, in every interleaving without a full win |
| RingProtocol.DrainReturnsAll | utils/MPSCRingBuffer.h:80-88 | with no `put` in progress on a won slot, repeated `get` returns everything won and nothing else |
| RingProtocol.PutPublishes | utils/MPSCRingBuffer.h:60-77 | an undisturbed `put` on a ring with room publishes its item and returns |
| RingProtocol.FullWinLooksEmpty | utils/MPSCRingBuffer.h:66-73 | the excluded event: after a swap won on a full ring head equals tail, a new `get` finds nothing, and a late test that the winner makes before head moves reports an overflow |
| RingProtocol.PutAloneExact | utils/MPSCRingBuffer.h:60-74 | an undisturbed `put` keeps the ring sound if and only if fewer than size-1 slots are outstanding; otherwise the ring looks empty |
| RingProtocol.RetryTestExact | utils/MPSCRingBuffer.h:68-70 | with a fresh tail the retry loop gives up if and only if the ring is full |
| RingProtocol.StaleRetryRefusesEmptyRing | utils/MPSCRingBuffer.h:66-71 | with a stale tail it can give up although nothing is outstanding |
| RingRetry.SwapFailsExactly | utils/MPSCRingBuffer.h:66-71 | lock freedom: whatever other threads do between a read of the tail and the swap, the swap is won if and only if the tail is as it was read, and otherwise another thread has won one |
| RingRetry.RetryTurn | utils/MPSCRingBuffer.h:66-71 | a thread that has lost a swap gives up if and only if the tail it reads next is one slot behind the head at its test, and else tries to swap that tail |
| RingRetry.RetryPublishes | utils/MPSCRingBuffer.h:62-77 | from every sound state with room a thread that has lost a swap and is then left alone publishes its item as the next one and changes nothing else |
| RingRetry.StaleSwapPublishes | utils/MPSCRingBuffer.h:62-77 | so does a thread whose tail is stale before its first swap |
| RingBuffer.MPSCRingBuffer.constructor | utils/MPSCRingBuffer.h:46-53 | a new ring holds nothing |
| RingBuffer.MPSCRingBuffer.Put | utils/MPSCRingBuffer.h:60-77 | without other calls in progress: appends while fewer than size-1 items are queued; otherwise fails and leaves nothing to be read |
| RingBuffer.MPSCRingBuffer.Get | utils/MPSCRingBuffer.h:80-88 | takes the oldest item, fails exactly on an empty queue, which it does not change |
| RingBuffer.PutStepByStep | utils/MPSCRingBuffer.h:60-77 | what the class says of `put` is what the interleaved form does when nobody disturbs it, on every sound ring, with room and without |
| HttpFraming.CompleteTakesSome | webserver/HTTPFramingStrategy.cpp:52-72 | a completed message takes at least one and at most all of the new bytes, and what is left waiting is never a whole message |
| HttpFraming.ContentLengthGrows | webserver/HTTPFramingStrategy.cpp:45-50 | more text never makes the announced length smaller |
| HttpStream.CallOnClean | webserver/HTTPFramingStrategy.cpp:7-73 | on any part of a clean stream a call waits until the next request is whole and then completes exactly it |
| HttpStream.CleanIsNecessary | webserver/HTTPFramingStrategy.cpp:22-60 | if every cutting delivers the requests, every header has at most 2049 bytes, announces its body, and no later text reads as another announcement or as chunked coding |
| HttpStream.ChunkIndependence | webserver/TcpClient.cpp:56-86 | every cutting of a stream of requests delivers exactly those requests, each ending at header end plus Content-Length, if and only if the stream is clean in that sense |
| HttpStream.AnnouncedIsClean | webserver/HTTPFramingStrategy.cpp:24-60 | a condition a client can check: if every header has at most 2049 bytes and a Content-Length line that announces its body, and chunked coding is named nowhere in the stream, then the stream is clean |
| HttpRequests.RefusedExactly | webserver/HTTPFramingStrategy.cpp:22-43 | a call fails with -2 if and only if more than 2048 bytes hold no blank line, with -3 if and only if they hold one and Transfer-Encoding in any case, blanks and chunked in any case follow each other anywhere in the text, and with nothing else |
| HttpRequests.RequestIsAnnounced | webserver/HTTPFramingStrategy.cpp:22-60 | every request of a line without colon, a Content-Length line, any other plain lines and a body is framed in front of its body, and announced if and only if its header has at most 2049 bytes |
| HttpRequests.OrdinaryAreDelivered | webserver/TcpClient.cpp:56-86 | every cutting of any stream of such requests that names chunked coding nowhere delivers exactly the requests |
| TcpClient.ProcessData | webserver/HTTPFramingStrategy.cpp:7-73 | the growing buffer, the error codes, the number of bytes taken and the message left in the buffer are those of one framing decision on all bytes accumulated |
| TcpClient.TcpClient.constructor | webserver/TcpClient.cpp:14-27 | nothing received, nothing queued |
| TcpClient.TcpClient.OnReceive | webserver/TcpClient.cpp:56-86 | the loop delivers the messages of the whole chunk in order, keeps the rest, and stops for good at the first framing error |
| TcpClient.TcpClient.SendData | webserver/TcpClient.cpp:92-118 | queues behind everything pending; on a full ring the queue is lost and nobody is told |
| TcpClient.TcpClient.GetTxData | webserver/TcpClient.cpp:120-132 | hands out the unsent rest of the oldest buffer |
| TcpClient.TcpClient.OnDataSent | webserver/TcpClient.cpp:134-151 | moves on by the bytes taken and drops a buffer that is sent; the connection stays sound if and only if no more bytes are reported than were left |
| TcpClient.TcpClient.ProcessSend | webserver/TcpServer.cpp:279-303 | with writes that take any positive number of bytes the send loop ends and has sent the pending bytes in front of the first empty buffer; that is everything if and only if no data is behind an empty buffer |
| SendQueue.SentTakesFront | webserver/TcpClient.cpp:134-151 | a partial write removes exactly the written bytes from the front of what is pending |
| SendQueue.TurnConserves | webserver/TcpClient.cpp:92-151 | sent plus pending stays equal to accepted in a turn if and only if the turn does not overflow a ring that holds bytes |
| SendQueue.RunConserves | webserver/TcpClient.cpp:92-151 | over every run of sends and partial writes without an overflow, sent bytes followed by pending bytes are the accepted buffers in order |
| SendQueue.ConservesExactly | webserver/TcpClient.cpp:92-151 | all states of a run are conserved if and only if no turn overflows a ring that holds bytes |
| SendQueue.ReachableIsAll | webserver/TcpClient.cpp:120-132 | the send loop reaches all pending bytes if and only if no non-empty buffer is behind an empty one |
| SendQueue.StopsAtEmpty | webserver/TcpClient.cpp:120-132 | when nothing is handed out, nothing more can be reached |
| SendQueue.BlockedRun | webserver/TcpClient.cpp:92-151 | in every run of sends and writes without an overflow, what is sent and what is in reach stay the same together while an empty buffer is queued |
| SendQueue.EmptyBufferStalls | webserver/TcpClient.cpp:120-132 | once an empty buffer is current no later run sends a byte |
| HttpResponse.HTTPBufferedResponse.constructor | webserver/HTTPBufferedResponse.cpp:5-7 | a response starts with its body and no header |
| HttpResponse.HTTPBufferedResponse.BuildHeader | webserver/HTTPResponse.cpp:97-123 | builds the header on the first call only and keeps it afterwards; what a header is, HeaderEnds and HeaderIsLines say |
| HttpResponse.HTTPBufferedResponse.GetResponseChunk | webserver/HTTPBufferedResponse.cpp:13-24 | every call reads a window of one fixed text, header and body, however often it is called |
| HttpResponse.SendResponse | webserver/WebServer.cpp:265-278 | the loop ends and has queued header and body in pieces of the buffer size and one empty piece |
| HttpResponse.BuffersAreContent | webserver/WebServer.cpp:265-278 | the pieces concatenate to the response, none is longer than 1024 bytes, and exactly the last one is empty |
| HttpResponse.HeaderAnnouncesBody | webserver/HTTPResponse.cpp:102-117 | the Content-Length scanner of the framing reads the body length from the header, whatever the other fields and the body contain |
| HttpHeader.HeaderIsLines | webserver/HTTPResponse.cpp:97-123 | a header is its list of lines, each ended by a line break, and a blank line: status, length, the lines that are given, and the two fixed ones |
| HttpHeader.HeaderEnds | webserver/HTTPResponse.cpp:97-123 | for fields without carriage return and NUL, whatever the body, a reader of lines gets exactly those lines and the first blank line of the response is the end of the header |
| HttpHeader.ResponseIsOneMessage | webserver/HTTPResponse.cpp:97-123 | so the framing of requests cuts every response that does not name chunked coding exactly between header and body and behind the body |
| HttpResponse.AcceptedExactlyWhenRoom | webserver/WebServer.cpp:271-276 | all pieces are accepted if and only if they fit into a ring of 4000 slots, and are then pending in order |
| HttpResponse.OnlyFirstResponseIsSent | webserver/WebServer.cpp:271-276 | a response queued on an idle connection is in reach of the send loop whole, and nothing queued behind it is |
| HttpResponse.NothingPassesResponse | webserver/WebServer.cpp:271-276 | over every later run of sends and writes without an overflow, only that response is ever sent |
| WsFrames.DecodeEncode | websocket/WSProtocolParser.h:17-24 | a decoder of RFC 6455 section 5.2 reads every encoded frame back, whatever follows, with the shortest length form |
| WsFrames.DecodeAllEncodeAll | websocket/WSProtocolParser.cpp:144-181 | a concatenation of frames reads back as exactly those frames, each with as few length bytes as its size allows |
| WsFrames.MaskTwice | websocket/WebSocket.cpp:129-133 | unmasking undoes masking |
| WsFrames.UnmaskedExamples | websocket/WSProtocolParser.h:17-24 | the unmasked examples of section 5.7 of RFC 6455, in one frame, in two, and as a ping |
| WsFrames.MaskedExamples | websocket/WebSocket.cpp:129-133 | its masked examples |
| WsFrames.LongExamples | websocket/WSProtocolParser.cpp:144-181 | and its two longer length forms, for every payload of 256 and of 65536 bytes |
| WsParser.ParseKeepsSound | websocket/WSProtocolParser.cpp:35-141 | in every parser state the expected length is the one the accumulated bytes ask for, and is never passed |
| WsParser.ParseProgress | websocket/WSProtocolParser.cpp:40-55 | a call takes no byte if and only if the state already holds all it waits for |
| WsParser.DeadMeans | websocket/WSProtocolParser.cpp:57-138 | which states those are: an unmasked header, or a masked frame that is whole or has no payload |
| WsParser.WSProtocolParser.constructor | websocket/WSProtocolParser.cpp:9-15 | a fresh parser waits for two bytes |
| WsParser.WSProtocolParser.ResetMessageBuffer | websocket/WSProtocolParser.cpp:22-33 | fresh again, with the buffer back at its default size |
| WsParser.WSProtocolParser.ParseWSMessage | websocket/WSProtocolParser.cpp:35-141 | the incremental parser with its growing buffer does what the parser on values does, and index, expected length and allocation stay in order |
| WsConnection.StuckForever | websocket/WebSocket.cpp:97-112 | once a turn takes nothing and does not leave the loop, no number of further turns does |
| WsStream.ChunkIndependence | websocket/WebSocket.cpp:88-168 | every cutting of a stream of masked frames of any opcode handles exactly its frames in order, with data delivered, pings and close frames answered and the parser ready again, if and only if every frame has a payload and a handled opcode |
| WsStream.DataIsDelivered | websocket/WebSocket.cpp:127-140 | for data frames that means: exactly their messages with type, fin flag and unmasked payload, and no other change |
| WsStream.EchoIsPong | websocket/WebSocket.cpp:273-287 | the echoed bytes are the encoding of a pong with the flags, mask and payload of the ping |
| WsStream.LoopAlwaysEnds | websocket/WebSocket.cpp:97-112 | for every stream of frames, masked or not: the receive loop ends on every chunk of every cutting if and only if nothing follows a masked frame that is empty or not handled, or an unmasked frame came before |
| WsStream.RefusedTurn | websocket/WebSocket.cpp:103-107 | a connection that refused an unmasked header closes again on every chunk, without looping |
| WsStream.UnhandledOpcodeSticks | websocket/WebSocket.cpp:159-164 | however a frame with an unhandled opcode is received, a close frame is queued, the frame stays in the parser and no byte behind it is ever taken |
| WsLifecycle.LeftForever | websocket/WebSocket.cpp:59-257 | once a switched connection has left Connected, no sequence of receives, sends, writes and watchdog calls returns it or hands out another byte |
| WsLifecycle.StepBalance | websocket/WebSocket.cpp:170-224 | a call keeps sent plus pending equal to accepted, or marks the connection as left with a prefix sent, if and only if it does not queue on a full ring before the switch of protocol |
| WsLifecycle.RunBalance | websocket/WebSocket.cpp:170-224 | all states of a run are balanced in that sense if and only if no call of it does |
| WsLifecycle.SentIsPrefix | websocket/WebSocket.cpp:170-224 | over every run the bytes handed out are a prefix of the handshake replies followed by the queued frames, if the ring does not overflow before the switch |
| WsLifecycle.HttpOverflowLoses | websocket/WebSocket.cpp:218-223 | what such a call does: every queued buffer is lost, so accepted bytes are missing if and only if the queue held any, and the connection goes on |
| WsLifecycle.StepNeverStalls | websocket/WebSocket.cpp:170-224 | with non-empty replies no call ever queues an empty buffer, and everything pending is in reach of the send loop |
| WsLifecycle.RunNeverStalls | websocket/WebSocket.cpp:170-224 | so after every run with such replies everything pending is in reach |
| WsLifecycle.SentMessagesDecode | websocket/WebSocket.cpp:259-271 | whatever list of texts and binaries is sent at once, the ring overflows if and only if the messages of at most 65535 bytes are too many for it, and otherwise the queued bytes decode to exactly those messages, each final, unmasked and in the shortest form |
| WsAnswers.SwitchesExactly | websocket/WebSocket.cpp:59-86 | a connection that starts in HTTP has switched after a run if and only if some handshake of the run was accepted, and every run without one ends |
| WsAnswers.AcceptConnects | websocket/WebSocket.cpp:78-80 | right after the first accepted handshake the connection is a connected WebSocket |
| WsAnswers.AcceptedExactly | websocket/WebSocket.cpp:59-168 | over every run that loses no buffer the accepted bytes are those written out from the operations: handshake replies, one frame for a message, and the answers to received frames, in order |
| WsAnswers.FrameAnswers | websocket/WebSocket.cpp:135-167 | with room in the ring a ping is answered by its pong, a close frame by an empty close frame unless one was sent, after which the connection is closed, any other opcode that is not data by a close frame and the start of closing, and data by nothing |
| WsAnswers.CloseFrameIs | websocket/WebSocket.cpp:232-239 | the close frame decodes to a final unmasked close frame without payload |
| WsAnswers.UnmaskedIsRefused | websocket/WebSocket.cpp:103-107 | with the second byte of an unmasked frame, however it arrives, the connection queues a close frame, starts closing and leaves the frame in the parser |
| WsAnswers.ClosedAfterFiveSeconds | websocket/WebSocket.cpp:241-257 | a closing connection that only its timer touches is closed if and only if the timer ran at least five seconds after the closing began |
| WebSocket.PackMessage | websocket/WSProtocolParser.cpp:144-181 | the packed bytes are the encoding of one final unmasked frame; longer messages give none |
| WebSocket.WebSocketConnection.constructor | websocket/WebSocket.cpp:37-51 | a new connection speaks HTTP and has nothing queued |
| WebSocket.WebSocketConnection.Unmask | websocket/WebSocket.cpp:124-133 | the loop unmasks the payload in place and leaves the header alone |
| WebSocket.WebSocketConnection.ProcessPing | websocket/WebSocket.cpp:273-287 | queues the same frame with the opcode of a pong, still masked |
| WebSocket.WebSocketConnection.ProcessWholeWSPacket | websocket/WebSocket.cpp:119-168 | delivers data frames, answers pings, closes on close frames and on unknown opcodes, and resets the parser except for the last |
| WebSocket.WebSocketConnection.CheckHTTPBuffer | websocket/WebSocket.cpp:59-86 | queues the reply of a decision and switches protocol on acceptance only; what that means over runs, SwitchesExactly and AcceptedExactly say |
| WebSocket.WebSocketConnection.ProcessData | websocket/WebSocket.cpp:88-117 | the receive loop does what the loop on values does, reports the connection as lost exactly when it is closed, and is caught exactly when it never ends |
| WebSocket.WebSocketConnection.SendData | websocket/WebSocket.cpp:200-224 | queues behind everything pending; an overflow closes the connection |
| WebSocket.WebSocketConnection.CloseWebSocket | websocket/WebSocket.cpp:232-239 | one close frame, then Closing with the time noted |
| WebSocket.WebSocketConnection.GetTxData | websocket/WebSocket.cpp:170-182 | hands out nothing once a switched connection has left Connected |
| WebSocket.WebSocketConnection.OnDataSent | websocket/WebSocket.cpp:184-198 | moves on by the bytes taken; the connection stays sound if and only if no more bytes are reported than were left |
| WebSocket.WebSocketConnection.ProcessSend | webserver/TcpServer.cpp:279-303 | while the connection may send, the same loop ends with everything sent in front of the first empty buffer, which is everything when none is empty; once it may not, nothing is sent |
| WebSocket.WebSocketConnection.Watchdog | websocket/WebSocket.cpp:241-257 | aborts exactly when five seconds have passed in Closing, and returns false exactly then |
| WebSocket.WebSocketConnection.SendText | websocket/WebSocket.cpp:259-264 | queues one text frame or drops a message over 65535 bytes |
| WebSocket.WebSocketConnection.SendBinary | websocket/WebSocket.cpp:266-271 | the same for binary messages |
| JsonText.SafeExactly | json/Parser.cpp:323-355 | the quote finder stops at the closing quote, whatever follows, if and only if the contents are one NUL-free string body |
| JsonText.FindClosingQuoteLoop | json/Parser.cpp:323-355 | the loop finds that quote |
| JsonText.UnescapeEscape | json/Value.cpp:210-310 | unescaping undoes escaping on every string |
| JsonText.EscapeIsSafe | json/Value.cpp:210-251 | an escaped NUL-free string between quotes is one string literal |
| JsonText.EscapeHasNoRaw | json/Value.cpp:210-251 | escaped text holds no line feed, carriage return or tab |
| JsonText.EscapeKeepsExactly | json/Value.cpp:210-251 | a string is left as it is if and only if it has none of them, no quote and no backslash |
| JsonText.EscapeIsStandard | json/Value.cpp:218-247 | every character is written as itself or as the two-character escape that section 7 of RFC 8259 gives it |
| JsonText.UnescapedAgainstStandard | json/Value.cpp:267-303 | reading an escape agrees with that grammar on every character but four: a single quote is read in addition, and slash, b and f are not |
| JsonText.EscapeLoop | json/Value.cpp:210-251 | the loop computes the escaped string |
| JsonText.UnescapeLoop | json/Value.cpp:253-310 | the loop computes the unescaped string, with lone backslashes kept |
| JsonScan.FindClosingLoop | json/Parser.cpp:257-319 | both loops compute the bracket finder, strings skipped, none without an end |
| JsonScan.FindsClosing | json/Parser.cpp:258-319 | around any text that keeps the nesting level the finder returns exactly its length plus the brackets |
| JsonScan.RemoveSpacesLoop | json/Parser.cpp:18-53 | the loop computes the whitespace pass |
| JsonScan.RemoveSpacesIdempotent | json/Parser.cpp:18-53 | a second pass changes nothing, on every text |
| JsonDoc.ValidateNakedValue | json/Parser.cpp:182-233 | the loop computes the type of a literal, with its early exits |
| JsonDoc.ValidateExactly | json/Parser.cpp:182-233 | Int exactly for digits, UInt exactly for a minus sign and digits or nothing, Double exactly for one dot among digits with at most a minus sign in front, Bool exactly for true and false in any case, otherwise Illegal |
| JsonDoc.ValidateIsNaked | json/Parser.cpp:182-255 | every text that is accepted is read back whole by the literal reader |
| JsonDoc.FindsEndOfPrint | json/Parser.cpp:258-319 | behind a printed object or list, at any depth and whatever its strings contain, the finder returns exactly the printed length |
| JsonDoc.FormattingIsStripped | json/Parser.cpp:18-53 | the whitespace pass turns the print of a tree at any indent level into the same compact text |
| JsonDoc.PrintHasNoRaw | json/Object.cpp:108-135 | an unformatted print has no raw line break or tab if and only if no key, number or boolean has; strings never bring one in |
| JsonDoc.FormattedHasNoRaw | json/Object.cpp:108-135 | a formatted print has them only between its tokens, under the same condition |
| JsonDoc.LayoutOfTwo | json/Object.cpp:108-135 | a formatted print, two levels deep and written out: line breaks, tabs, colons, commas and the place of the closing bracket |
| JsonDoc.LayoutOfPlain | json/List.cpp:87-112 | the same for an unformatted one |
| JsonParse.ParseNakedValue | json/Parser.cpp:236-255 | the loop takes the longest literal |
| JsonParse.ParseStringCall | json/Parser.cpp:168-179 | the contents of a leading string; everything behind the quote when the string is unfinished, and nothing when it is empty |
| JsonParse.GetValueCall | json/Parser.cpp:95-165 | value, type and size of the leading value |
| JsonParse.GetPairCall | json/Parser.cpp:57-92 | key, value and size of the leading pair |
| JsonRoundTrip.RoundTrip | json/Object.cpp:78-135 | parsing a print of a sound object, at any indent level and in any member order, gives the tree back up to the tags a print cannot carry |
| JsonRoundTrip.RoundTripExactly | json/Object.cpp:108-135 | for every NUL-free tree the round trip holds if and only if keys are non-empty and quote-safe, number texts are accepted and booleans are true or false |
| JsonRoundTrip.ExactRoundTrip | json/Parser.cpp:195-233 | the tags come back as well if and only if moreover no value is Illegal and every number has the tag of its text |
| JsonRoundTrip.PrintParses | json/Object.cpp:78-135 | the same two conditions for trees: whatever order the hash maps give, every print of a NUL-free tree parses to that tree, with or without the tags, exactly when the tree is sound |
| JsonRoundTrip.ParsedPrintsSame | json/Value.cpp:112-135 | the tree that a print of a sound tree is parsed to has that same print: an Illegal value or another number tag never shows |
| JsonRoundTrip.ParsesToParserTree | json/Parser.cpp:57-255 | whatever text is parsed, the tree has printable keys, tags that fit the texts, and lower-case booleans |
| JsonRoundTrip.UnfinishedString | json/Parser.cpp:168-179 | a string without closing quote is read up to the end of the text, an empty one as nothing |
| JsonRoundTrip.IllegalLiteral | json/Parser.cpp:148-157 | a literal that is no number and no boolean is read as one fixed text with the tag Illegal |
| JsonKeys.GenerateKey | json/Object.cpp:173-187 | the loop ends with the first free name from the number of members on |
| JsonKeys.FreeFrom | json/Object.cpp:173-187 | that name is free and all before it are taken |
| JsonKeys.UnnamedAddKeepsAll | json/Object.cpp:146-187 | adding without a name adds one member and replaces none |
| JsonKeys.AssignedStringKept | json/Value.cpp:138-142 | an assigned string is kept unchanged if and only if it has no escape sequence in it |
| JsonLookup.AddFinds | json/Object.cpp:146-277 | after addObject, addList or addValue at the end of any path, an empty object, an empty list or the value is found under the name in an object and behind the others in a list, all other children are as before, and a value or a wrong path changes nothing |
| JsonLookup.SetFinds | json/Value.cpp:138-206 | an assignment replaces text and tag of a value, and changes nothing anywhere else |
| JsonLookup.ElsewhereSame | json/JSON.cpp:189-197 | under every path that parts from the one of an operation the same tree is found as before |
| JsonLookup.UnnamedTakesFirstFree | json/Object.cpp:173-187 | without a name an object takes the first free one of key0, key1, and so on, from its number of members on |
| JsonLookup.FirstNames | json/Object.cpp:173-187 | so the first two unnamed members of an object are key0 and key1 |
| JsonNode.Node.Add | json/Object.cpp:146-277 | objects replace or insert under the name or a generated key, lists append, values refuse; the node stays a tree |
| JsonNode.Node.Assign | json/Value.cpp:138-206 | only values take an assigned leaf |
| JsonNode.Node.Apply | json/JSON.cpp:189-197 | an operation at the end of any path of operator[] changes the tree there and nowhere else, and leads nowhere on a wrong path |
| JsonNode.Node.Copy | json/Object.cpp:30-40 | the same tree out of new nodes only |
| JsonNode.Node.CopyList | json/List.cpp:21-31 | the same for lists, in order |
| JsonNode.Node.Stringify | json/Value.cpp:112-135 | the text is a print of the tree, with the members of its objects in some order |
| JsonNode.Node.StringifyObject | json/Object.cpp:108-135 | so is the text of an object, whatever order its hash map has |
| JsonNode.Node.StringifyList | json/List.cpp:87-112 | so is the text of a list |
| JsonNode.NewItem | json/Value.cpp:14-28 | the node of one parsed value |
| JsonNode.NewObject | json/Object.cpp:78-105 | the loop builds new nodes that form the tree the parser defines |
| JsonNode.NewList | json/List.cpp:57-84 | the same for lists |
| JsonRoot.SameTreeExactly | json/Object.cpp:115-128 | two prints stand for the same tree if and only if they differ only in the order of members |
| JsonRoot.JSON.constructor | json/JSON.cpp:52-54 | a pure instance has no tree |
| JsonRoot.JSON.AssignNode | json/JSON.cpp:139-147 | copies the tree of any node, even one of its own, into new nodes |
| JsonRoot.JSON.Assign | json/JSON.cpp:60-91 | the same tree in new nodes, nothing for a pure instance, no change on self-assignment |
| JsonRoot.JSON.Parse | json/JSON.cpp:287-307 | the root becomes the parsed object and the caller's text loses its whitespace |
| JsonRoot.JSON.Stringify | json/JSON.cpp:310-321 | the print of the root, or an empty object for a pure instance |
| JsonRoot.JSON.Apply | json/JSON.cpp:327-428 | adding to a pure instance makes it an object first; assigning a leaf to it does nothing |
| JsonRoot.AssignThenChange | json/JSON.cpp:139-147 | after an assignment, every interleaved sequence of adds and leaf assignments on copy and original gives each the outcome of its own operations alone, and they never share a node |
| HashPadding.ChunkCountExact | utils/sha256.cpp:68-69 | the 32-bit chunk count covers the padded message if and only if it is shorter than 2^32-72 bytes |
| HashPadding.FillChunk | utils/sha256.cpp:75-100 | copying, clearing, marker and length writing produce block after block of the standard's padded message |
| HashPadding.WriteLength | utils/sha256.cpp:92-97 | the byte loop writes the 64-bit length in bits |
| HashPadding.FilledIsBlock | utils/md5.cpp:62-80 | where the marker, the zeros and the length of the padding lie in each block |
| HashPadding.PaddingReads | utils/sha256.cpp:68-100 | the padded message is the message, a one bit, the fewest zeros that fill whole blocks, and eight bytes that read back as the length in bits, in either byte order |
| Sha256.SHA256 | utils/sha256.cpp:38-135 | for every message shorter than 2^32-72 bytes the digest is the one of FIPS 180-4 section 6.2.2, whose constants, rotations and chaining the next rows pin down |
| Sha256.Schedule | utils/sha256.cpp:103-109 | swapped words and computed words are the message schedule |
| Sha256.RunRounds | utils/sha256.cpp:111-129 | the register loop computes the 64 rounds |
| HashConstants.ConstantsAreCubeRoots | utils/sha256.h:33-40 | as section 4.2.2 of FIPS 180-4 has it: constant t is the first 32 bits of the fractional part of the cube root of the t-th prime |
| HashConstants.InitialIsSquareRoots | utils/sha256.cpp:40-47 | the initial hash value, in the same way the square roots of the first eight primes |
| HashConstants.NthPrimeIsNth | utils/sha256.h:33-40 | the primes meant are the first sixty-four, with none left out |
| Sha256Example.Example | utils/sha256.cpp:38-135 | the digest of the two-block message TEST2_1 of section 8.5 of RFC 6234 is the published one |
| Sha1.SHA1 | utils/sha1.cpp:40-139 | for every message shorter than 2^32-72 bytes the digest is the one of FIPS 180-4 section 6.1.2 |
| Sha1.OrFormsAgree | utils/sha1.cpp:105-119 | the choice and majority forms with OR equal the standard's with XOR |
| Sha1.Schedule | utils/sha1.cpp:97-98 | the rotated XOR words are the message schedule |
| Sha1.RunRounds | utils/sha1.cpp:100-132 | the register loop computes the 80 rounds |
| HashConstants.Sha1ConstantsAreSquareRoots | utils/sha1.cpp:105-119 | the four constants are the square roots of 2, 3, 5 and 10 in units of 2^-30 |
| HashConstants.InitialBytes | utils/sha1.cpp:40-44 | the registers of MD5 start from the bytes of section 3.3 of RFC 1321, those of SHA-1 from the same words and a fifth |
| Sha1Example.Example | utils/sha1.cpp:40-139 | the digest of the same two-block message is the published one |
| Md5.MD5 | utils/md5.cpp:32-118 | for every message shorter than 2^32-72 bytes the digest is the one of RFC 1321 |
| Md5.ComputedIndexIsListed | utils/md5.cpp:89-108 | the computed word index is the one listed in RFC 1321 section 3.4 |
| Md5.SecondFormIsG | utils/md5.cpp:96 | the second round's form equals G |
| Md5.RotationIsRenaming | utils/md5.cpp:109-113 | rotating four registers in each step does what the 64 named operations do |
| Md5.RunSteps | utils/md5.cpp:85-115 | the loop computes the 64 operations |
| Md5Example.Example | utils/md5.cpp:32-118 | the digest of the last message of appendix A.5 of RFC 1321, of two blocks, is the published one; it uses every shift and every table entry |
| Words.SwappedMemory | utils/sha256.cpp:134 | the words swapped in memory are the big-endian digest |
| Base64.Encode | utils/Base64.cpp:12-46 | the loop with its four-byte loads gives the group-wise encoding of the memory |
| Base64.EncodedDecodes | utils/Base64.cpp:12-46 | whatever follows the input, the text decodes to the input and has 4 times ceil(n/3) characters |
| Base64.StandardExactly | utils/Base64.cpp:19-34 | the text is the one of RFC 4648 section 4 if and only if n is a multiple of three or the two or four bits behind the input are zero |
| Base64.TableIsAlphabet | utils/Base64.cpp:10 | the digit table is the standard's alphabet |
| Base64.Examples | utils/Base64.cpp:12-46 | the reference encoder gives the examples of section 10 of RFC 4648, and the last two letters of the alphabet |

## Left out

- Weak memory ordering, and the compiler's treatment of non-atomic shared fields: steps are sequentially consistent.
- RingBuffer.MPSCRingBuffer.Put: calls that overlap are in RingProtocol; the class is for calls that do not.
- RingSafety.FifoSafety: promises nothing once a step has done the harm that StepIsSafe describes; FullWinLooksEmpty shows how the ring looks then.
- TcpClient.ProcessData: the Content-Length number has no upper bound and no sign, so an overflow of `atoi` or of the 32-bit sum is not modelled; the search text is exactly the accumulated bytes up to the first NUL, because the original reads on behind an unterminated buffer; a chunk is shorter than 2^31 bytes, because the number of bytes taken is returned as an `int`; the server reads at most 1024 bytes at a time (`webserver/TcpServer.cpp:222-260`).
- TcpClient.TcpClient.SendData: the buffer is always copied; the variant that keeps the caller's buffer would let the caller change it later. The wake-up of the server thread is left out.
- TcpClient.TcpClient.ProcessSend: a write that fails or closes the connection is not modelled; every write takes at least one byte.
- WsParser.WSProtocolParser.ParseWSMessage: bytes are unsigned, the reading of section 5.2 of RFC 6455, while the original reads lengths from plain `char`; header plus payload length does not wrap around at 2^64; allocation always succeeds.
- WebSocket.WebSocketConnection.Unmask: the loop index is unbounded, so payloads of 2^31 bytes and more, where the original's `int` overflows, behave like all others.
- WebSocket.WebSocketConnection.ProcessData: the clock is a parameter; a loop that never ends is reported instead of run.
- WebSocket.WebSocketConnection.CheckHTTPBuffer: the decision of the handshake parser and the request handler is a parameter; `HTTPProtocolParser` is not part of this model.
- Callbacks are logs of what was delivered; a callback that calls back into the connection is not modelled.
- HttpResponse.HeaderAnnouncesBody: status texts contain no colon, as none of those in `HTTPResponse::getCode` does.
- JsonRoundTrip.RoundTripExactly: texts contain no NUL. Reads behind the end of a text without a closing quote, which are undefined in the original, see NUL characters.
- JsonKeys.AssignedStringKept: numbers and booleans are assigned as the text an output stream prints; how a double is printed and read (`atof`, `atoi`) is left out, and exponent texts such as 1e+06 are among those the parser does not accept.
- JsonRoot.JSON.Assign: assigning a whole tree to an inner node, which the original ignores, and the move operations, which swap roots, are left out; so are `JSONPathQuery`, `parseFile`, `size` and `keys`.
- JsonNode.Node.Add: a node that is replaced is dropped, not deleted; references a caller keeps to it are not modelled.
- HashPadding.FillChunk: one method for the three constructors, which repeat the same code; `toHex` and the debug output of MD5 are left out.
- Sha256.SHA256: the schedule, the rounds and the final swap are methods of their own, as in Sha1 and Md5, instead of one long body.
- Base64.Encode: up to three bytes behind the input must be readable, as the original's loads need; the length is unbounded, while the original's is 32 bits.
- Sockets, TLS, epoll, threads and event descriptors: input and output.
- REST routing, cookies, headers, sessions, digest authentication, nonces and logging: clock, random source, files, and otherwise only easier members.
