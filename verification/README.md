# evnet: a verified model

evnet is a network library in C. The logic that is easy to get wrong in it is a set of incremental
parsers, the ring buffer that feeds one of them, the wake-up protocol between its worker threads and its
event loop, and the bookkeeping that ties channels to what the kernel watches. This project models these
parts in Dafny and proves what they promise, on every input, every run and every interleaving.

Check it with `dafny verify dfyconfig.toml`.

## How the model is laid out

| files | part of evnet |
|---|---|
| `Common.dfy`, `Events.dfy` | integer widths; callback logs, compared with adjacent data callbacks of one kind merged |
| `HttpTypes.dfy`, `HttpSwitch.dfy` | fields, tables and the arms of the big switch of `httparser.c` |
| `HttpSpec.dfy`, `HttpUpgrades.dfy`, `HttpParser.dfy` | the byte machine that says what the parser means, and the buffered parser with marks and bulk moves, proved to agree with it |
| `HttpHeaders.dfy`, `HttpLengths.dfy`, `HttpLines.dfy`, `HttpRequests.dfy`, `HttpUrls.dfy`, `HttpMessages.dfy`, `HttpResponses.dfy`, `HttpTheorems.dfy`, `HttpGrammar.dfy` | the recognisers, the length arithmetic, lists of header lines, request lines and URLs, whole requests and responses, pipelines and the callback grammar |
| `Multipart.dfy`, `MultipartCuts.dfy`, `MultipartParts.dfy`, `MultipartRoundTrip.dfy` | `muparser.c`: the byte machine and the parser with its look-behind buffer; cuts; the delimiter search; printing and parsing |
| `DataQueue.dfy`, `Framing.dfy` | `dataqueue.c`; `msgpraser.c` and `msg_pack.c` on top of it |
| `Actors.dfy`, `ActorLoop.dfy` | the worker completion protocol as interleaved atomic steps, and the C functions as runs of it |
| `EventLoop.dfy`, `Channels.dfy` | `event.c` over epoll; `channel.c` without SSL |

Each parser has two forms. One is the imperative form of the source: a class with the fields of the C
struct, a loop over the buffer, marks, and a ghost `log` of the callbacks made. The other is a machine that
takes one byte at a time and keeps no pointers. The first is proved equal to the second, and the theorems
about streams are proved about the second. The struct `http_parser` is one value field `f` of its class, so
that both forms share the arms of the switch. What `on_headers_complete` returns is a function `hc` of the
fields.

`char` is signed and integers are little-endian, as on the hosts the library is built for. Unsigned
arithmetic that can wrap is written with its modulus.

## What turned out not to hold

The model follows the code; these are the places where the code does less than one would expect, each with
its exact condition.

* A ring buffer whose second segment has grown up to the drained first one loses the order of its bytes
  with the next insert that fits. This is the only such insert (`DataQueue.InsertSoundIff`), it is reachable
  (`DataQueue.CorruptionReachable`), also under the packet parser with ordinary arrivals
  (`Framing.SessionReachesCollision`), and reading first avoids it (`DataQueue.TurnRemovesCollision`).
* The overflow guard of the HTTP lengths misses some wraps (`HttpLengths.GuardMissesWrap`): a Content-Length of
  5000000000 is accepted as 705032704 (`HttpLengths.LengthWraps`). The accumulated length is the true one if
  and only if that is below 2^32 - 1 (`HttpLengths.AccumulatedExact`).
* A chunk size is not checked to be hexadecimal: of the bytes that are no digit, exactly those below 128 are
  refused (`HttpLengths.SizeByteRefused`, `HttpLengths.SizeRefused`), and the others count as the digit 0
  (`HttpLengths.HighBytesAreZeros`).
* A response with status 1xx, 204 or 304 has no body (RFC 7230, section 3.3.3). The parser ends it with its
  empty line if and only if the headers announce no chunks and no bytes (`HttpResponses.BodylessComplete`); a
  304 with `Content-Length: 5` swallows the next five bytes (`HttpResponses.NotModifiedHasBody`).
* After two slashes the URL recogniser accepts a target without a host, and any printable bytes as a path:
  `a:///` is one (`HttpUrls.HostlessTarget`), and `HttpUrls.TargetIff` says which texts are accepted.
* A response parser calls `message_begin` once more for every line end in front of a response
  (`HttpResponses.LeadingLineEnds`); a request parser calls it once a message (`HttpGrammar.NotesAlternate`).
* `make_msg_packet` does not test that its packet fits: payloads above 32752 bytes are written past its static
  buffer (`Framing.MakeMsgPacket`). Of those that fit, the receiver refuses the ones above 32744
  (`Framing.RoundTrip`).
* The data callbacks of `channel.c` call a handler that may not have been bound, notice `Missing`. It happens
  to an upstream channel whose `channel_bind` connected and was then refused by the kernel, and on which data
  is sent all the same, as `msgc.c` does by not looking at the result (`Channels.SendAfterRefusal`).
  `Channels.Net.OnReadable` and `Channels.Net.OnWritable` say exactly which events do it. If every send of a
  history finds its channel bound (`early == 0`), then every channel that is watched has a handler, and no
  call misses one (`Channels.Serve`).
* A multipart header may not be cut anywhere: `MultipartCuts.CutCall` says at which cuts the callbacks
  stay the same, in both directions. A name cut behind a hyphen (`MultipartCuts.UncleanName`) and a value whose
  CR ends a buffer (`MultipartCuts.UncleanValue`) change them.
* The timeout sweep never looks at the tail of the list, unless it is the only channel: an expired channel
  stays if and only if it is the tail and not alone (`Channels.SweptIff`, `Channels.Net.CheckTimeouts`). A
  time-out that does not fit 32 bits expires at once (`Channels.OverdueMeans`).
* A loop made without a pipe has nothing to wake its main thread with: a finished actor may wait until a
  time-out (`Actors.WithoutPipe`), and it may so if and only if there is no pipe (`Actors.WakeUpsNeedPipe`).

## Model

| member | source | states |
|---|---|---|
| HttpParser.HttpParser.constructor | httparser.c:1569-1581 | a parser starts in the start state of its type, with no error |
| HttpParser.HttpParser.Execute | httparser.c:458-1550 | a call leaves the fields, consumed count and merged callbacks of the byte machine; after an error nothing happens; an empty buffer is EOF; at most one pending piece is lost, and only on an error |
| HttpParser.HttpParser.Round | httparser.c:516-531 | one byte with all its re-executions, or one bulk run, is exactly that stretch of the byte machine; the loop terminates by the rank of the state |
| HttpParser.HttpParser.Pass | httparser.c:532-1536 | one pass of the switch keeps at most one live mark, the one that the state names, and calls back what the byte machine logs |
| HttpParser.HttpParser.SwallowIdentity | httparser.c:1422-1436 | the jump over body bytes of known length equals feeding them one by one, and ends the body exactly when the length is used up |
| HttpParser.HttpParser.SwallowEof | httparser.c:1437-1440 | the jump over a body that lasts until EOF equals feeding its bytes |
| HttpParser.HttpParser.SwallowChunk | httparser.c:1505-1520 | the jump inside a chunk equals feeding its bytes |
| HttpParser.HttpParser.CallbackData | httparser.c:32-48 | a data callback delivers the bytes since the mark and clears it, and only if it is set |
| HttpParser.HttpParser.Flush | httparser.c:1537-1542 | at the end of a buffer the one pending piece is delivered |
| HttpParser.RebuiltAgrees | httparser.c:495-514 | the marks rebuilt from the state on re-entry stand for an empty pending piece of the right kind |
| HttpParser.SwitchMarkLaw | httparser.c:532-1536 | every case sets, keeps or flushes the mark that its old and new states call for |
| HttpParser.ExecuteAll | httparser.c:458-1550 | buffers handed over one by one, up to the one that is refused or in which the machine leaves HTTP, give the fields, count and callbacks of their concatenation |
| HttpParser.CutAnywhere | httparser.c:458-1550 | fragmentation independence: one call and any cutting into non-empty buffers leave the same fields and count, and without an error the same merged callbacks, also when an upgrade ends the run |
| HttpSpec.AgainDescends | httparser.c:1022-1027 | every re-execution of a byte goes to a state of lower rank, so every chain of them is finite |
| HttpSpec.FeedWellFormed | httparser.c:516-531 | over any input, bodies of known length have bytes left to come whenever the machine is in them, and indices stay inside the strings they index |
| HttpUpgrades.FeedClear | httparser.c:1358-1391 | from a clear `upgrade`, it is set exactly when a call has returned because what follows is not HTTP |
| HttpSpec.FeedConcat | httparser.c:516-531 | the byte machine reads a concatenation as its parts in turn |
| HttpSpec.IdentityLast | httparser.c:1422-1436 | the last body byte announced by Content-Length is where message_complete is reached |
| HttpHeaders.NameRecognised | httparser.c:1016-1169 | after a token and a colon the header state is one of the four known ones if and only if the name equals that constant in any letter case (proxy-connection counts as connection) |
| HttpHeaders.NameMeaningFold | httparser.c:1058-1150 | the nested name recogniser is case-insensitive string equality |
| HttpHeaders.ValueRecognised | httparser.c:1171-1338 | after a single-line value, which may be empty, and CR LF or LF alone, the chunked, keep-alive and close flags are set if and only if the value means that word, letter case and trailing spaces ignored |
| HttpLengths.AccumulateExact | httparser.c:1262-1275 | a step yields base*x+d if and only if that is below 2^32 - 1; an accepted step is base*x+d mod 2^32, not smaller than x and not 2^32 - 1 |
| HttpLengths.GuardMissesWrap | httparser.c:1262-1275 | appending 0 to 500000000 wraps to 705032704 and is accepted |
| HttpLengths.LengthWraps | httparser.c:1262-1275 | a Content-Length of 5000000000 is read, without an error, as 705032704 |
| HttpLengths.AccumulatedExact | httparser.c:1207-1276 | a digit string is accumulated to its value if and only if the value is below 2^32 - 1 |
| HttpLengths.LengthRecognised | httparser.c:1207-1276 | content_length after a Content-Length value equals the number if and only if it fits |
| HttpLengths.SizeRecognised | httparser.c:1445-1483 | the same for a chunk size in hexadecimal |
| HttpLengths.HighBytesAreZeros | httparser.c:1445-1483 | in a chunk size a byte from 128 on leaves the machine as the digit 0 does |
| HttpLengths.SizeByteRefused | httparser.c:1445-1483 | of the bytes that are neither a hexadecimal digit nor the end of a size, exactly those below 128 are refused with HPE_INVALID_CHUNK_SIZE |
| HttpLengths.SizeRefused | httparser.c:1445-1483 | a chunk size is refused as such if and only if it has a byte below 128 that is no hexadecimal digit and no overflow comes first; it is refused at the first such byte |
| HttpRequests.MethodRun | httparser.c:740-842 | each of the 26 method names and a space is read as that method, with one message_begin |
| HttpRequests.UrlRun | httparser.c:843-910 | a target on which the URL recogniser does not fail, started for the method, is delivered whole as URL data |
| HttpRequests.RequestLineRun | httparser.c:740-1015 | a request line is read as its method, target and version 1.1 |
| HttpUrls.TargetIff | httparser.c:330-455 | the URL recogniser accepts exactly the texts of a grammar: printable bytes after a slash or an asterisk, or a scheme, "://", an authority without two at-signs in a row, and printable bytes from its first slash or question mark on; after CONNECT, the authority alone |
| HttpUrls.HostlessTarget | httparser.c:330-455 | the target `a:///`, which has no host, is accepted |
| HttpResponses.CodeRecognised | httparser.c:679-721 | a status code is read as its number if and only if that is at most 999, and refused otherwise |
| HttpResponses.StatusLineRun | httparser.c:580-739 | a status line, with or without a reason phrase, is read as its version, code and reason, with one message_begin and one status_complete |
| HttpResponses.LeadingLineEnds | httparser.c:580-602 | line ends in front of a response are skipped, and each calls message_begin once |
| HttpResponses.HeadMeans | httparser.c:307-327 | a response needs EOF to end if and only if it has neither a length nor chunks and its status allows a body |
| HttpResponses.ResponseRun | httparser.c:580-1530 | a response, whatever headers it has, yields exactly its own callbacks; its body is framed by chunks if any header says so, else by the last announced length, else not at all or by EOF; `Connection: close` makes it the last |
| HttpResponses.BodylessComplete | httparser.c:1393-1420 | a response with status 1xx, 204 or 304 is complete at its empty line if and only if its headers announce no chunks and no bytes |
| HttpResponses.NotModifiedHasBody | httparser.c:1393-1420 | a 304 with Content-Length 5 is not complete at its empty line, and the next five bytes are its body |
| HttpResponses.SkippedRun | httparser.c:1350-1396 | when on_headers_complete returns 1 the message is complete with its empty line, whatever the headers announce |
| HttpResponses.LeavingResponse | httparser.c:1358-1391 | a response with an Upgrade header that is not empty is complete at its empty line, and nothing behind it is consumed |
| HttpResponses.ResponsesRun | httparser.c:304 | the responses of a connection are told apart |
| HttpResponses.ParseResponses | httparser.c:477-483 | for any cutting into buffers, what follows a response without a length is its body, and EOF completes it once |
| HttpLines.LineRun | httparser.c:1016-1349 | a header line, with any spaces and tabs before its value and CR LF or LF behind it, yields its name and value as data and leaves the machine at the next line |
| HttpLines.AllToldMeans | httparser.c:1171-1338 | read line by line, a list of headers leaves its last Content-Length, and `chunked`, `close` and `upgrade` if and only if one of them says so |
| HttpLines.LinesLeave | httparser.c:1016-1349 | any list of header lines yields its names and values in order, and leaves just that: nothing else about the message changes |
| HttpMessages.HeadersEnd | httparser.c:1350-1421 | the empty line yields headers_complete once and chooses how the body is framed |
| HttpMessages.SizedBody | httparser.c:1422-1444 | a body of announced length is delivered whole, then message_complete once, and the machine is back at its start |
| HttpMessages.ChunkedBody | httparser.c:1445-1530 | chunks with or without extensions, last chunk and trailers yield the concatenated data, the trailer headers and one message_complete |
| HttpMessages.RequestRun | httparser.c:740-1530 | a well-formed request, whatever headers it has, yields exactly its own callbacks and ends in the start state, or, with `Connection: close`, in the dead state; its body is in chunks if any header says so, whatever lengths are announced beside them, else of the last announced length, else empty |
| HttpMessages.PipelineRun | httparser.c:304 | pipelined requests are told apart: each gets its own callbacks and its next n bytes as body; one that closes the connection is the last |
| HttpMessages.NothingFollows | httparser.c:533-540 | after the last message of a connection line ends are skipped and every other byte is refused |
| HttpMessages.HeadersLeave | httparser.c:1358-1391 | the empty line of an upgraded message completes it and leaves the call |
| HttpMessages.LeavingRun | httparser.c:1358-1391 | a CONNECT request, or one with an Upgrade header that is not empty, is complete at its empty line, and nothing behind it is consumed |
| HttpTheorems.ChunkedRoundTrip | httparser.c:1445-1530 | for any list of non-empty pieces the chunked coding yields their concatenation as body, and message_complete once, on the last byte |
| HttpTheorems.DigitsValue | httparser.c:140-151 | a number written in digits of a base is read back as that number |
| HttpTheorems.ParsePipeline | httparser.c:458-1550 | a pipeline cut into buffers anywhere makes exactly the callbacks of its requests |
| HttpGrammar.FeedSuits | httparser.c:580-1530 | the log of a request or response parser is always a prefix of whole messages in callback order, and in step with the state |
| HttpGrammar.NotesAlternate | httparser.c:580-1421 | a request calls message_begin, headers_complete and message_complete once each, in this order; a response calls message_begin at least once, status_complete at most once, and the others once |
| HttpGrammar.BodyIsLast | httparser.c:1383-1444 | no headers_complete, no message_begin and no URL data between body data and message_complete |
| HttpGrammar.NewParser | httparser.c:1569-1581 | a new request or response parser is in step with the grammar |
| HttpGrammar.ExecuteInStep | httparser.c:458-1550 | every call keeps the callback grammar, failing calls included |
| Multipart.MultipartParser.constructor | muparser.c:67-84 | a parser starts in s_start with an empty look-behind |
| Multipart.MultipartParser.Execute | muparser.c:98-296 | a call leaves state, index, callbacks and count of the byte machine, and returns early exactly when the machine stops |
| Multipart.MultipartParser.StepStart | muparser.c:108-135 | the first boundary line is compared byte by byte |
| Multipart.MultipartParser.StepField | muparser.c:137-167 | header names, with the mark, the hyphen that is not delivered at a buffer's end, and the refused bytes |
| Multipart.MultipartParser.StepValue | muparser.c:169-204 | header values, with the second delivery of a value whose CR ends the buffer |
| Multipart.MultipartParser.StepData | muparser.c:206-224 | part data up to a CR is delivered from the mark |
| Multipart.MultipartParser.StepDelimiter | muparser.c:226-252 | a delimiter that breaks off is delivered from the look-behind buffer and the byte is looked at again as data |
| Multipart.MultipartParser.StepEnd | muparser.c:254-286 | what may follow a delimiter |
| MultipartCuts.FieldsAgree | muparser.c:98-296 | state, index, total count and verdict never depend on how the stream is cut, nor do they on an error |
| MultipartCuts.CutCall | muparser.c:137-204 | two calls make the callbacks of one if and only if the cut is clean: inside a name both or neither deliver it, inside a value the second buffer does not end at the CR, and not between that CR and its LF |
| MultipartCuts.UncleanName | muparser.c:137-167 | the name `a-b` cut behind its hyphen makes other callbacks than in one buffer |
| MultipartCuts.UncleanValue | muparser.c:181-194 | so does a value whose last buffer ends at its CR |
| MultipartCuts.CallbacksAgree | muparser.c:98-296 | a stream cut at clean cuts only makes the callbacks of one call |
| MultipartCuts.ExecuteAll | muparser.c:98-296 | the parser called on every buffer in turn does what `Calls` says |
| MultipartParts.Searches | muparser.c:206-252 | while no delimiter has occurred, delivered bytes and look-behind are together exactly the payload consumed |
| MultipartParts.DelimiterFound | muparser.c:206-252 | the part ends with the last byte of CRLF and boundary, and what was delivered is the text in front of it |
| MultipartParts.FirstDelimiter | muparser.c:239-252 | in any stream it is the first occurrence that ends the part, and no earlier byte does |
| MultipartParts.DataInPieces | muparser.c:206-252 | the same invariant for part data cut anywhere |
| MultipartParts.PartInPieces | muparser.c:206-252 | part data and its delimiter cut anywhere deliver exactly the text before the delimiter |
| MultipartRoundTrip.RoundTrip | muparser.c:98-296 | parts printed in the layout of RFC 2046, section 5.1.1, come back with the same names, values and bodies, and body_end once |
| MultipartRoundTrip.PartsReadBack | muparser.c:98-296 | the callbacks of the printed parts determine the parts |
| MultipartRoundTrip.ParseParts | muparser.c:98-296 | the round trip on the parser itself, for buffers cut at clean cuts |
| DataQueue.InsertSoundIff | dataqueue.c:17-74 | an insert leaves one of the three shapes if and only if it is not a non-empty one that fits into the collision |
| DataQueue.StepSound | dataqueue.c:3-98 | every operation that is allowed leaves one of the three shapes |
| DataQueue.TurnRemovesCollision | dataqueue.c:89-98 | dataqueue_next_data removes the collision and exposes a non-empty stretch |
| DataQueue.CorruptionReachable | dataqueue.c:17-74 | ordinary traffic from the empty queue reaches the excluded state, for buffers of every size from 4 |
| DataQueue.CapacityBound | dataqueue.c:22-68 | over any run with inserts of at most N and at most M bytes held, N <= M, twice the capacity stays within 3*(M+N) |
| DataQueue.CopyBound | dataqueue.c:41-68 | all bytes moved by reallocation over any run are at most three times what the capacity grew by |
| DataQueue.Queue.constructor | dataqueue.h:15-23 | a zeroed queue is empty |
| DataQueue.Queue.Insert | dataqueue.c:17-74 | insert appends, through wrap and growth; the contract says exactly when it does not and what is read then |
| DataQueue.Queue.MakeRoom | dataqueue.c:22-68 | the space for an insert is found, rewound to or allocated, and nothing queued is lost |
| DataQueue.Queue.Grow | dataqueue.c:41-68 | reallocation moves both segments to the front in reading order |
| DataQueue.Queue.WouldCorrupt | dataqueue.c:25-39 | a caller can tell the excluded inserts beforehand |
| DataQueue.Queue.Distill | dataqueue.c:76-87 | distill drops a prefix, at most what is exposed |
| DataQueue.Queue.NextData | dataqueue.c:89-98 | next_data exposes a non-empty prefix and leaves the contents alone |
| DataQueue.Transfer | dataqueue.c:17-98 | over any run of writes and partial reads, what was read and what is still queued are together exactly what was put; the run stops only before an excluded insert |
| DataQueue.Queue.Remove | dataqueue.c:3-15 | remove empties the queue, and frees its buffer if asked to |
| Framing.HeadRoundTrip | msg_frame.h:12-26 | a packet head read from its bytes is the head written |
| Framing.HeadBytesOfHead | msg_frame.h:12-26 | any eight bytes are those of the head they are read as |
| Framing.MakeMsgPacket | msg_pack.c:6-26 | the packet of the message, size field wrapped to 16 bits, lies at the start of the static buffer, or its head alone if there is no data pointer; what lies behind the buffer is left alone if the payload is at most 32752 bytes, and is overwritten otherwise |
| Framing.ParseAppend | msgpraser.c:83-119 | parsing an arrival and then the next, with the kept half-read head, is parsing both at once |
| Framing.RoundTrip | msgpraser.c:5-119 | messages packed and parsed come back in order; all of them if and only if every payload is at most 32744 bytes |
| Framing.PrefixDelivered | msgpraser.c:5-119 | whatever part of the stream has arrived, a prefix of the messages has been called back, and all of them at the end |
| Framing.MsgParser.constructor | msgparser.h:9-15 | a new parser has no head and has counted nothing |
| Framing.MsgParser.Command | msgpraser.c:5-81 | one packet is taken from the queue through its exposed segments, or its head is kept; the copy position stays inside the receive buffer |
| Framing.MsgParser.Fill | msgpraser.c:61-68 | the copy loop moves exactly the next bytes of the queue, however many segments they lie in |
| Framing.MsgParser.Parser | msgpraser.c:83-119 | a call delivers the messages of what is queued, keeps the rest, and counts the messages delivered |
| Framing.Session | msgpraser.c:83-119 | over a whole connection, the ring buffer included, the messages delivered are those of the concatenated arrivals, unless the next insert is an excluded one |
| Framing.SegmentsParsed | msgpraser.c:13-78 | of arrivals of 100, 58 and 150 bytes, a packet of 150 bytes and a head that announces a large one, the parser takes 8 bytes, then 150, then none |
| Framing.SessionReachesCollision | dataqueue.c:22-39 | these arrivals and reads bring the queue from empty to the state in which 8 more bytes come out of order |
| Actors.AwakeStep | evactor.c:43-93 | every step of every thread keeps the wake-up invariant, with or without a pipe |
| Actors.NoLostWakeUp | evactor.c:43-51 | in every reachable interleaving of a loop with a pipe, a non-empty finished list means a byte in the pipe, a worker about to signal, or a main thread that will still look or signal itself |
| Actors.WithoutPipe | libnet.c:86-93 | without a pipe, one submission and one worker that runs it lead to a finished actor that nobody will look for |
| Actors.WakeUpsNeedPipe | libnet.c:86-93 | no wake-up is lost in any interleaving if and only if there is a pipe |
| Actors.ExactlyOnce | evactor.c:43-93 | in every reachable interleaving an actor is called with THREADRUN at most once and then DONE at most once, DONE follows the order of appending, and no actor is in two of batch, list and told |
| Actors.TidyStep | evactor.c:43-93 | every step keeps each submitted actor in exactly one place and makes only the call that is due |
| Actors.WorkFalls | evactor.c:43-93 | every step but a submission and a time-out reduces the work left |
| Actors.RestIsDone | evactor.c:61-93 | when no thread can make a step, every actor has been run, and told unless there is no pipe and it is still on the list; with a pipe the list is empty |
| Actors.EverybodyTold | evactor.c:43-93 | from any reachable state, without new submissions and without the help of a time-out, every schedule comes to rest within a computed number of steps, with everybody told; without a pipe, with everybody told but those still on the list |
| ActorLoop.Completion.Async | libnet.c:128-136 | a write adds a byte unless the pipe is full |
| ActorLoop.Completion.DrainPipe | evpipe.c:7-12 | the read loop ends with an empty pipe, and is a run of the protocol |
| ActorLoop.Completion.ActorRun | evactor.c:43-51 | run, append and signal, as three steps of the protocol |
| ActorLoop.Completion.TakeBatch | evactor.c:72-81 | at most 128 actors leave the list, oldest first |
| ActorLoop.Completion.TellAll | evactor.c:83-88 | the batch is told in order |
| ActorLoop.Completion.Loop | evactor.c:61-93 | evactor_loop as a run of the protocol: the first 128 are told, the rest stay, and the thread signals itself exactly when the batch was full |
| ActorLoop.Completion.Settle | evactor.c:61-93 | left alone, the main loop tells everything on the list in order, in one round more than the list holds full batches |
| EventLoops.EventLoop.constructor | event.c:195-223 | a new loop has no mask, an empty interest set and maxfd -1 |
| EventLoops.EventLoop.ApiAdd | event.c:128-144 | the kernel gets the merged mask; an ADD is never refused because the descriptor is there, nor a MOD because it is not |
| EventLoops.EventLoop.ApiDel | event.c:146-163 | the kernel keeps the remaining mask, or forgets the descriptor |
| EventLoops.EventLoop.CreateFileEvent | event.c:233-253 | masks, callbacks, interest set and maxfd after a registration; it fails only outside the table or when the kernel refuses |
| EventLoops.EventLoop.DeleteFileEvent | event.c:255-286 | masks and interest set after a removal; the rescan finds the highest descriptor left, or -1 |
| Channels.Channel.constructor | channel.c:78-93 | a channel starts without flags, handler and data |
| Channels.OverdueMeans | channel.c:402-410 | the wrapping test is that the time-out has passed, or that its end does not fit 32 bits |
| Channels.LinkedWith | channel.c:95-105 | a node whose neighbours know it extends one cycle to one cycle, next and prev inverse |
| Channels.LinkedWithout | channel.c:122-125 | joining the neighbours of a node leaves one cycle without it, next and prev inverse |
| Channels.UnmarkedAt | channel.c:391-413 | what a sweep keeps, it keeps in order |
| Channels.SweptIff | channel.c:391-413 | a channel is still there after a sweep if and only if it has not expired, or is the tail and not alone |
| Channels.Net.constructor | libnet.c:74-94 | no channels, on a loop in which nothing but other modules' descriptors is registered |
| Channels.Net.Link | channel.c:95-105 | the new channel is the head of one cycle with next and prev inverse |
| Channels.Net.Unlink | channel.c:116-127 | the channel leaves the cycle, whose order stays |
| Channels.Net.Create | channel.c:78-108 | a new channel for a fresh descriptor keeps list and registry in agreement |
| Channels.Net.Register | event.c:233-253 | a registration by another module keeps list and registry in agreement |
| Channels.Net.Unregister | event.c:255-286 | so does its removal |
| Channels.Net.Close | channel.c:110-171 | the channel leaves list, masks and interest set, its handler hears of it once, and no other channel changes |
| Channels.Net.Bind | channel.c:330-370 | the flag, mask and kernel interest that a binding sets, when it fails, and what a failure has changed all the same: the socket may be connected |
| Channels.Net.Send | channel.c:372-389 | the data is queued and the kernel watches for room, or the result is false; a send on a channel that is not bound is counted as early |
| Channels.Net.Handshake | channel.c:174-222 | an upstream channel starts to read, or is closed |
| Channels.Net.OnReadable | channel.c:224-269 | input is queued and reported to the handler, or the channel waits or is closed; the handler is missing if and only if there is input, from a peer, on a channel that is not bound |
| Channels.Net.OnWritable | channel.c:271-328 | a prefix of the queue is sent, on a connected socket only, and reported to the handler; write interest ends exactly when the queue is empty; the handler is missing if and only if something is sent on a channel that is not bound |
| Channels.Net.SendUnheard | channel.c:271-328 | data sent on a channel that is connected and not bound is written by the next event, and the handler is missing |
| Channels.SendAfterRefusal | msgc.c:42-66 | a bind whose connect succeeds and that the kernel then refuses, and a send whose caller has not looked at the result, lead from an empty loop to a missing handler |
| Channels.Net.Watched | channel.c:372-389 | the kernel watches a live channel's descriptor for exactly its flags, and for room while data waits |
| Channels.Net.Visit | channel.c:400-411 | one round of the sweep closes the node if and only if it is expired, and goes on to its old successor |
| Channels.Net.CheckTimeouts | channel.c:391-413 | a sweep terminates, looks at every node but the tail (or at the only one) once, closes exactly the expired ones among them, and keeps the order of the rest |
| Channels.Net.Crond | channel.c:415-420 | the same, and nothing on an empty list |
| Channels.Net.Dispatch | event.c:308-326 | a fired event calls back a live channel of that descriptor only, also when the read callback, or what the read handler then did to any channel, has closed it |
| Channels.Net.Process | event.c:288-330 | a batch of fired events, with whatever their handlers do in between, keeps list and registry in agreement; handlers that do nothing leave every channel alone that has not fired |
| Channels.Serve | libnet.c:74-94 | after any history of arrivals, binds, sends, closes, other modules' registrations, fired events with their handlers' calls, and sweeps, from the loop that evnet_init leaves with or without its pipe, the kernel watches each live channel for exactly its flags, maxfd bounds it, and waiting data has write interest unless its last send failed; if every send found its channel bound, every watched channel is bound and no handler was missing |

## Left out

- Sockets, name lookup, SSL, acceptors, `harbor.c`, `upload.c`, `httpc.c`, `httpd.c`, `msgc.c`, `msgd.c` and the URL helpers: foreign calls and thin glue; read and write sizes, kernel refusals and the clock are parameters instead.
- Allocation failure, sizes at which unsigned queue counters wrap, and negative lengths.
- The select variant of `event.c`: only the epoll one is modelled.
- HTTP callbacks are taken to be set and to return 0, but for `on_headers_complete`, whose result is any function of the fields; callbacks that change the parser are not modelled.
- HttpParser.ExecuteAll: a caller sees that a call has left HTTP by `upgrade` having been set or by bytes not consumed; for a parser whose `upgrade` is still set from an earlier message, runs that leave HTTP again are not covered.
- HttpParser.CutAnywhere: the same, and nothing is said of the callbacks after an error, because the pending piece is dropped then.
- HttpRequests.RequestLineRun: prints HTTP version 1.1, single spaces and a CR LF; the machine also takes other versions, more spaces and a bare LF.
- HttpResponses.StatusLineRun: likewise; a code that a bare LF ends, for which status_complete is not called, is in the machine but not printed.
- HttpLines.LineRun: folded lines, and a Content-Length that is no number or does not fit, are in the machine, not in the printed lines.
- HttpMessages.RequestRun: prints version 1.1 and lines as above; trailers say nothing about body, protocol or connection.
- HttpResponses.ResponseRun: the same.
- HttpGrammar.FeedSuits: is about parsers that were made for requests or for responses; one that is still to find out (HTTP_BOTH) is in the machine but not in this claim.
- The 26 method names are read as such, but the method recogniser also takes other words; no claim is made about those.
- Multipart.MultipartParser.constructor: boundaries are not empty, since behind an empty one the parser compares with its own look-behind bytes; multipart callbacks are taken to return 0.
- MultipartRoundTrip.RoundTrip: needs at least one part, because the parser refuses the closing delimiter as a first line.
- Framing.MakeMsgPacket: the buffer is a parameter, long enough that the bytes written past it can be told; what they destroy is not modelled. The receive buffer of `_command` is a parameter too.
- Actors: the thread pool is taken to run each job once; each critical section, and the unlocked test for an empty list, is one atomic step; the unlocked id counter is not modelled.
- ActorLoop.Completion.Settle: that the main thread calls `evactor_loop` after each `evnet_loop` is an assumption; the header asks the application to do so, and no file of the repository does.
- Channels: the two queues of a channel are byte sequences; that `dataqueue.c` implements them, with its one exclusion, is proved in `DataQueue.dfy`.
- Channels.Net.Send: appends to such a sequence, so that the one insert after which the ring buffer loses the order of its bytes does not show here.
- Channels.Net.Close: what a handler does while its channel is being closed (_EVCLOSED) is not modelled; the data handlers may do anything to any channel.
- Channels.Net.OnReadable: SSL reads, which may return nothing without closing the channel.
- Channels.Serve: that accepted and connected sockets have a peer is taken from the commands; what the callbacks of other modules do is modelled by the calls that they make.
