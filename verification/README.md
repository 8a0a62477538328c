# A verified model of the HTTP parser and the file server of iMonitor

The project models two programs of the repository and proves what they do on every input.

**The parser**, `http_parser_execute` (http-parser/http_parser.c), in its strict build. `Machine` gives
one byte of the loop as a function, `Messages` a run over a buffer and the messages an application
collects from the callbacks. `HttpParser` is the imperative parser: the stored fields, the loop over an
array with local copies of five of them, the six marks, the callbacks as a log, and the jumps over body
bytes. `Execute` is proved against the byte-by-byte run, and the theorems are about that run.

**The server** (imonitor.c, utils.c). `Transfer` is the state machine of one connection, with the kernel's
side of it, and the server as a map of connections; `Server` has the handlers that update fields and a
buffer in place and the loop in `main`; `Receive` has the way from the request to the path it asks for.

| module | what it holds |
|---|---|
| Syntax, Machine, Messages | bytes and tables; one byte of the parser; runs, calls, collected messages |
| Spelling, Tables | letters and digits spelt out; the tables and limits, entry by entry |
| Frames, Invariant | what each group of states may change; the inductive invariant |
| Split | feeding in pieces, the header counter and its limit |
| Marks, Bodies, Delivery, HttpParser | slices against bytes, bulk bodies, the imperative parser |
| Headers, HeaderLines, Framing | the header recogniser against a reader that compares whole strings; whole header blocks and bodies |
| Chunked, Versions, Response, Request, Methods, Targets | printed messages and what is parsed back; method words; URLs in pieces |
| FirstLines, RequestLines, StatusLines, Chunks | exactly which first lines and which chunked bodies are accepted |
| Either, Leaving, Limit | a parser that awaits either kind; the exit for another protocol; the header limit on whole heads |
| Independence, Protocol, UrlCalls, TargetText | what the parser remembers; the order of the callbacks; the URL callback; the text it gets |
| Transfer, Server, Receive | the server |

## Facts of the code that the model keeps

- `content_length` is a `size_t` (http-parser/http_parser.h:124), so "no length" is 2^64 - 1, the branch for
  it at http-parser/http_parser.c:1424-1433 is dead code, and a message without a length never completes
  (`Request.UnsizedWaits`).
- `nread` and `index` are stored in 8 bits (http-parser/http_parser.c:1570-1571). `index` loses nothing;
  `nread` does, so the header limit binds only within a call (`Split.JoinExact`).
- `unhex` gives bytes from 128 on the value 0 (http-parser/http_parser.c:145-154), so they count as the digit zero
  of a chunk size; and a size counts modulo 2^64. `Chunks.ChunksAccepted` states both.
- The comment at http-parser/http_parser.c:104-110 excludes separators from names; the table below it has the
  space, `"`, `/` and `}`. The model follows the table (`Tables.TokenTable`).
- A step whose C text reads past a method string, or counts a negative chunk length, is a separate outcome,
  `Stray`; `Methods.StraysExactly` says when the first of these happens.
- The server ignores what `http_parser_execute` returns (imonitor.c:193-201): it serves the path it was told,
  whether the request was accepted, refused later, cut off, or asked for another protocol.
- A request for another protocol leaves the function without saving the state and returns the index of the
  last LF (http-parser/http_parser.c:1405-1408). A run ends there.
- The comment at imonitor.c:59-62 calls its callback `on_path`, but by position it is bound to `on_url`
  (imonitor.c:72-83 against http-parser/http_parser.h:144-155). The model follows the code.
- The repository's README.md:32-33 closes a connection once the whole file has been read; the code closes it after the last
  write (imonitor.c:437-444). The model follows the code.

## Findings

- Method words in C and M that are no methods are accepted: `CXPY` as COPY, `CAAAAAA` as CONNECT, `MXXXX` as
  MKCOL, `MXACTIVITY` as MKACTIVITY (`Methods.MisreadWords`). `Methods.MethodRecognised` gives, for each method,
  exactly the words that are read as it: as CONNECT, for one, any seven bytes that begin with C, hold no NUL, and
  have no H second and no P third. The reading is right exactly when the word is one of the 23 strings
  (`Methods.MethodSound`).
- The matcher leaves its string on `CAAAAAAAA` and on `MXXXXXX` (`Methods.StrayWords`), and in general exactly
  after a counted word that is one byte longer than the string (`Methods.StraysExactly`).
- The path buffer is zeroed once for a buffer that may hold several requests. A request for `/abc` and then one
  for `/x` leave `/xbc` (`Receive.MixedTargets`); the last target is kept exactly when no earlier one is longer
  (`Receive.LastLeft`).
- In the window between the request and the first write the socket is registered for both directions. A socket
  event without `EPOLLOUT` then stops the server (`Transfer.WindowStops`): `conn->eventfd` is not initialised
  there, so the server ends if its value is no registered descriptor, and otherwise removes that descriptor and
  waits for an operation nobody submitted. Such an event is survived exactly when the socket is registered for
  input only (`Transfer.ReadableExactly`).
- Pieces that are each within the header limit can add up to a buffer that is not (`Split.JoinFails` has two such
  pieces, `Split.JoinExact` the exact condition).

## Assumptions about the environment

Callbacks return 0. The kernel reports, for each connection, only events its registrations allow; in the window
named above the socket is writable; no event is a hang-up. A read returns at least one byte and at most
`BUFSIZ` and what is left of the file; a write completes in full. The file exists, does not change while it is
sent, and is smaller than 2^31 bytes. A request is received whole before it is parsed. The value of a pointer
in an event is not mistaken for a descriptor.

## Model

| member | source | states |
|---|---|---|
| HttpParser.HttpParser.Init | http-parser/http_parser.c:1607-1617 | on a fresh or a used object: the start state of the type, no flag, no counted byte, no other protocol; the fields the function leaves alone are kept |
| HttpParser.HttpParser.Execute | http-parser/http_parser.c:321-1578 | one call on an array: consumed buffers, refused bytes (with their index), the exit for another protocol and undefined steps are those of the byte-by-byte run; the stored fields, narrowed to 8 bits where C narrows, and the messages collected from the slices are the run's; at a refused byte the application lacks exactly the bytes of the slices open there; no assertion fires; the callbacks come in order; each URL is told once and whole, but for one the buffer cuts off, however the call ends |
| HttpParser.HttpParser.NextByte | http-parser/http_parser.c:379-1559 | one turn of the loop keeps the loop invariant: marks set exactly in their states, slices so far plus pending bytes equal the bytes read |
| HttpParser.HttpParser.SwitchByte | http-parser/http_parser.c:388-1559 | the imperative switch changes fields, marks and log exactly as the machine's outcome says, for every state and byte |
| HttpParser.HttpParser.IdentityBytes | http-parser/http_parser.c:1439-1451 | the jump over an identity body delivers one slice and leaves the parser of the byte-by-byte run; complete exactly at the last byte |
| HttpParser.HttpParser.ChunkBytes | http-parser/http_parser.c:1524-1541 | the jump over chunk data delivers one slice and leaves the parser of the byte-by-byte run |
| HttpParser.HttpParser.FlushMarks | http-parser/http_parser.c:1561-1566 | at the end of a buffer exactly the open slices are delivered, in order |
| HttpParser.FeedBuffers | http-parser/test.c:1502-1575 | any number of non-empty buffers, until one is not consumed: the place of the end, the stored parser, the messages and the order of the callbacks are those of the calls, however they end; URLs decomposed; if one call on all the bytes consumes them, the calls do, with the same parser and messages |
| Invariant.FreeStepSafe | http-parser/http_parser.c:388-1559 | on every byte from every reachable parser no C assertion fires and the invariant is kept |
| Invariant.FeedSafe | http-parser/http_parser.c:379-1573 | over every buffer: no assertion fires, and what is stored is fit for the next call |
| Split.CallsSafe | http-parser/http_parser.c:321-1578 | over every sequence of calls on any bytes no assertion fires |
| Split.Accounting | http-parser/http_parser.c:379-386 | over every run the header counter is the number of bytes read in header states since it was last restarted, or since the run began |
| Split.LimitExact | http-parser/http_parser.c:379-386 | the limited loop consumes a buffer exactly when the unlimited one does and no run of header bytes is longer than 80*1024; then both agree |
| Split.SplitOnce | http-parser/http_parser.c:362-377 | split invariance: two calls consume what one consumes, with the same stored parser and the same events |
| Split.SplitMany | http-parser/README.md:4-9 | split invariance for any number of non-empty pieces |
| Split.JoinExact | http-parser/http_parser.c:1570-1571 | the converse: when each piece is consumed, the whole is, exactly if its header runs are within the limit |
| Split.JoinFails | http-parser/http_parser.c:1570-1571 | two pieces that are each consumed while the buffer they make is not |
| Marks.StepDelivers | http-parser/http_parser.c:31-72 | for each way a byte can move the open slices, the bytes delivered as slices plus the pending ones are the bytes counted one by one |
| Bodies.IdentityRun | http-parser/http_parser.c:1439-1451 | delivered bytes plus the remaining length are the declared length; the message completes exactly at its last byte |
| Bodies.ChunkDataRun | http-parser/http_parser.c:1524-1541 | delivered bytes plus the remaining length are the chunk size; the chunk ends exactly at its last byte |
| Headers.HeaderBlock | http-parser/http_parser.c:1026-1363 | on every input the incremental recogniser accepts and refuses the same bytes as a reader that compares whole strings, letters in either case and trailing spaces ignored, and at the empty line has the same flags and length |
| HeaderLines.LinesRun | http-parser/http_parser.c:1026-1363 | printed header lines, with either line end, come back name by name and value by value, with the framing fields of the plain comparison |
| HeaderLines.BlockFlags | http-parser/http_parser.c:1026-1363 | for every header block, bare LFs and lines without a colon included: cut into lines at LF, colon and spaces, each flag is set before the empty line exactly when it was set before or some line says so, and the length is the last one declared, modulo 2^64 |
| HeaderLines.AnyCase | http-parser/http_parser.c:1246-1363 | a line whose name and value are spelt in any mixture of capitals and small letters, with spaces after them, sets its flag: keep-alive, close, chunked, upgrade |
| Chunked.HexPrints | http-parser/http_parser.c:145-154 | a number printed with the sixteen digits, small letters or capitals, is a numeral with that value |
| Chunked.SizeDigits | http-parser/http_parser.c:1461-1495 | for every numeral, its digits worth what they are called, the stored size is its value modulo 2^64 |
| Chunked.ChunkedBody | http-parser/http_parser.c:1461-1553 | decoding inverts encoding (section 3.6.1 of RFC 2616): any chunks, digit case, leading zeros, extensions and trailers; one completed message; whether the connection is kept |
| Chunks.PiecesBody | http-parser/http_parser.c:1461-1553 | a body sent in any pieces, each behind its printed length, comes back whole |
| Chunks.ChunksAccepted | http-parser/http_parser.c:1461-1553 | exactly: a run from the first size gets to the trailers when the buffer begins with chunks, each with a size line within the limit and as much data as the size says modulo 2^64, and a size line that says zero; on no other input |
| Framing.LengthMessage | http-parser/http_parser.c:1365-1451 | after any header lines that declare the length, the body comes back and the message completes once |
| Framing.ChunkedMessage | http-parser/http_parser.c:1370-1375 | after any header lines that say chunked, the chunks come back, whatever length is declared too |
| Versions.NumberRun | http-parser/http_parser.c:469-553 | any numeral up to 999 in a version or status is stored as its value |
| RequestLines.LinesAccepted | http-parser/http_parser.c:574-1024 | exactly: a run from the start of a request gets to the header lines when the buffer begins with blank lines, a word read as a method, spaces, a target, and spaces and a version or neither, and they are within the header limit; on no other input |
| RequestLines.LineRun | http-parser/http_parser.c:574-1024 | every such line gives its method, version and target, its pieces included, and nothing else |
| StatusLines.LinesAccepted | http-parser/http_parser.c:427-573 | exactly: a run from the start of a response gets to the header lines when the buffer begins with blank lines, a version, spaces, a status number, and a reason phrase or none, and they are within the header limit; on no other input |
| StatusLines.LineRun | http-parser/http_parser.c:427-573 | every such line gives its numbers; each blank byte before it makes the message begin again |
| Either.EitherKind | http-parser/http_parser.c:396-426 | exactly, on every input: after blank lines `HT` makes a parser initialised for either kind the one for responses, anything else the one for requests, from there to the end of the run |
| Either.ResponseFound | http-parser/http_parser.c:396-426 | so a printed response comes back as from a parser for responses, and the kind is found |
| Either.RequestFound | http-parser/http_parser.c:396-426 | so does a printed request of any method but CONNECT, HEAD included |
| Leaving.RequestLeaves | http-parser/http_parser.c:1379-1408 | exactly: a request with a whole head leaves the parser at the LF of its empty line when its method is CONNECT or some line with a value is an upgrade line; the message is announced and complete once, and nothing after it is read; otherwise the head is consumed |
| Leaving.ResponseLeaves | http-parser/http_parser.c:1379-1408 | a response: exactly when some line with a value is an upgrade line |
| Leaving.BareEmptyLine | http-parser/http_parser.c:1028-1035 | a LF alone ends the headers, or the protocol, as CR LF does: the same events, parser and reason |
| Limit.HeadLimit | http-parser/http_parser.c:379-386 | the head of a request is refused at the first byte past 81920 counted ones, and not at all within them |
| Limit.ResponseHeadLimit | http-parser/http_parser.c:379-386 | so is the head of a response |
| Tables.TokenTable | http-parser/http_parser.c:111-142 | which bytes may stand in a header name, and that a capital counts as its small letter |
| Tables.UrlTable | http-parser/http_parser.c:157-190 | which bytes may stand in a path |
| Response.ResponseRoundTrip | http-parser/http_parser.c:427-573 | printing a response, with or without a reason phrase, with either line end, with a body of its length or in chunks, and parsing it gives back status line, headers, body and trailers, and the state that says whether the connection is kept |
| Response.HeaderSpelt | utils.c:18-24 | the text of the printed header, line by line |
| Response.ServedFile | utils.c:18-24 | the printed header followed by any file, cut up in any way and parsed by any parser, is one message: status 200, the printed length, the file; then the dead state |
| Request.RequestRoundTrip | http-parser/http_parser.c:574-1553 | printing a request with any method but CONNECT, any target with or without an authority, any version or none, either line end, any header lines, and a body of its length or in chunks, and parsing it, gives all of it back |
| Request.RequestsRoundTrip | http-parser/test.c:1441-1500 | any number of such requests in one stream, within the header limit that goes on counting after trailers, come back one by one |
| Request.UnsizedWaits | http-parser/http_parser.c:1415-1436 | a message that declares no length treats everything that follows as its body and does not complete |
| Methods.MethodRecognised | http-parser/http_parser.c:583-647 | exactly which words are read as which method |
| Methods.MethodSound | http-parser/http_parser.c:583-647 | for a first letter other than C or M the recognised method is the word; for any letter it is exactly when the word is a method string |
| Methods.EveryMethod | http-parser/http_parser.c:76-100 | each of the 23 strings, written out, is recognised as its method |
| Methods.MisreadWords | http-parser/http_parser.c:624-633 | four words that are no methods are recognised |
| Methods.StraysExactly | http-parser/http_parser.c:613-633 | in every run from a start state: with the parser still in the method, the next byte makes it read outside its string exactly when the word is overlong |
| Methods.StrayWords | http-parser/http_parser.c:613-633 | two inputs on which it does |
| Independence.RunSame | http-parser/http_parser.c:321-1559 | two parsers that agree on the fields their state can still read cause the same events on every input |
| Independence.FreshStart | http-parser/http_parser.c:1607-1617 | after initialisation the past does not matter, on any input, stops included |
| Independence.Pipelined | http-parser/test.c:1441-1500 | after a message on a kept connection the events of what follows are those of a new parser; both are consumed exactly when the new parser consumes the rest and the counter stays within its limit |
| Independence.BlankLines | http-parser/http_parser.c:574-578 | CR and LF before a request add no event |
| Protocol.StepObeys | http-parser/http_parser.c:388-1559 | each byte's callbacks may come after those before it: begin, target, header lines, headers complete, body, trailers, complete |
| Protocol.PendingObeys | http-parser/http_parser.c:1561-1566 | so may the slices flushed at the end of a buffer |
| Protocol.MessageCalls | http-parser/http_parser.c:396-1559 | callbacks heard in order, from the begin of a message to its completion, are: more begins (a response only), target slices (a request only), header lines, headers complete, body, trailers, complete |
| Protocol.HeardFromStart | http-parser/http_parser.c:321-1578 | from a start state the callbacks of a call are heard in order from the beginning |
| Targets.RunDecomposed | http-parser/http_parser.c:649-929 | in every run, for every finished message and the one under way: the URL is authority, path, question marks, query, number signs, fragment, in this order; the path has no '?', '#' or space, the query no '#' |
| Targets.CallsDecomposed | http-parser/http_parser.c:649-929 | the same over every sequence of calls |
| TargetText.FirstTarget | http-parser/http_parser.c:583-929 | when the request line is accepted up to the byte after its target, the first URL told is the bytes between the spaces after the method and the next space or line end, whatever follows and however the run ends |
| TargetText.HasLine | http-parser/http_parser.c:574-929 | the converse: every buffer from which a URL is told begins with blank lines, a word read as a method, spaces and a target, and the first URL is that target |
| TargetText.AskedOnce | http-parser/http_parser.c:574-929 | no more URLs are told in a call than messages have begun |
| Transfer.StepKeeps | imonitor.c:340-482 | whatever event comes, no `DIE`, no wait for an operation that was not submitted, no access past the buffer; the invariant is kept |
| Transfer.RunDelivers | imonitor.c:358-451 | over every run, with any read sizes: the socket has taken a prefix of the header and the file, all of it once closed; the run is bounded |
| Transfer.BufferKept | imonitor.c:222-244 | while a write is under way its buffer is not overwritten, and the socket takes what was submitted |
| Transfer.ClosesExactly | imonitor.c:437-461 | the connection closes exactly when the header and the whole file have been taken |
| Transfer.MeasureDrops | imonitor.c:358-451 | every event of a connection, an empty file included, brings it nearer to its end |
| Transfer.NeverStuck | imonitor.c:554-592 | a connection that is not closed has a next event |
| Transfer.Terminates | imonitor.c:358-461 | no run of a connection is longer than its measure, and a run has come to its end exactly when the connection is closed |
| Transfer.ReadableExactly | imonitor.c:349-351 | a socket event without `EPOLLOUT` is survived exactly when the socket is registered for input only; if not, the server ends or waits for ever, as the number left in `conn->eventfd` decides |
| Transfer.WindowStops | imonitor.c:349-351 | every client's request and then such an event stop the server |
| Transfer.TurnKeeps | imonitor.c:554-592 | one turn of the loop keeps every connection's invariant and changes one connection |
| Transfer.ServerRuns | imonitor.c:554-592 | any number of connections, any order of the events the kernel may report: the loop is never left, at most one operation each, the eventfd registered exactly then, the socket not armed for output meanwhile |
| Transfer.Projects | imonitor.c:554-592 | what happens to a connection among others is what happens to it alone |
| Transfer.ServedAndParsed | imonitor.c:358-461 | what the socket of a closed connection has taken, cut up in any way and parsed by any parser, is one message with the file as its body |
| Server.Connection.WriteHttp200Header | utils.c:18-24 | fills the buffer in place with the header and its NUL, and leaves the rest |
| Server.Connection.ReadData | imonitor.c:222-244 | registers the eventfd and submits a read at the offset already sent |
| Server.Connection.SendData | imonitor.c:307-335 | registers the eventfd and submits a write of the header or of the bytes read last |
| Server.Connection.HandleWork | imonitor.c:358-401 | the handler of a writable socket does what the state machine does, exits included |
| Server.Connection.HandleWorkDone | imonitor.c:408-462 | the handler of an ended operation does what the state machine does, exits included |
| Server.Connection.HandleEpollin | imonitor.c:469-481 | a new connection receives its request; any other waits for its operation |
| Server.Monitor.OnEvent | imonitor.c:583-591 | an event changes the connection it is about as the state machine says, and no other |
| Server.Monitor.Serve | imonitor.c:554-592 | the loop on any finite sequence of connections and events that the kernel may report is never left, follows the state machine and serves every client |
| Receive.Receiver.ReceiveMessage | imonitor.c:190-204 | however the run ends, what is kept as the requested path is the URLs that are told overlaid in order, when each is shorter than the buffer |
| Receive.Receiver.OnUrl | imonitor.c:63-69 | copies the bytes to the front of the buffer and leaves the rest |
| Receive.TargetExtracted | imonitor.c:190-200 | for every buffer from which one URL is told, the kept path is exactly the text of the target in its request line, if that is shorter than the path buffer |
| Receive.OneRequest | imonitor.c:190-200 | a buffer with one request, accepted up to the byte after its target, is such a buffer |
| Receive.PathReported | http-parser/http_parser.c:649-787 | a URL that begins with a slash and has neither '?' nor '#' is the path the parser reports |
| Receive.LastLeft | imonitor.c:192-200 | for a buffer with any number of requests, the path of the last is kept exactly when no earlier target is longer |
| Receive.MixedTargets | imonitor.c:192-200 | the buffer with a request for `/abc` and one for `/x` leaves `/xbc` |

## Left out

- System calls, sockets, epoll, inotify and asynchronous I/O: the kernel is the value `Transfer.Kernel`, under the assumptions above; w_epoll.h and sock_util.c are thin wrappers.
- Errors and early ends of `recv` (imonitor.c:169-182, 206-216), short writes, and a file that grows while it is sent: absent by assumption.
- The 404 answer (imonitor.c:378-381): it leaves `file_dimension` and `fd` unset, so nothing follows about the close.
- `is_req_finished` (utils.c:10-16): a test of four bytes of which one is enough; the request is assumed to be in the buffer.
- WTMP records, the log file and its creation (imonitor.c:246-302, 483-510): output formatting only.
- list.c: not built (Makefile.am:3).
- Callbacks that return an error, `F_SKIPBODY`, and going on after an upgrade: most of these exits do not save the state.
- The non-strict build and `s_body_identity_eof`, which an unsigned length makes unreachable.
- HttpParser.HttpParser.NextByte: callbacks are appended to a log instead of calling through a table of function pointers.
- Request.RequestRoundTrip: CONNECT and `Upgrade` end the run as another protocol, so nothing after their head comes back; `Leaving.RequestLeaves` says what comes back of the head, `Receive.TargetExtracted` that the target does. The empty line is printed as CR LF; `Leaving.BareEmptyLine` covers a LF alone.
- HeaderLines.LinesRun: lines without a colon are not printed, because an application that collects headers joins their name to the next one; `HeaderLines.BlockFlags` covers what they say.
- Receive.Receiver.ReceiveMessage: the copies are made after the call from its log, in the order of the callbacks; a URL longer than the buffer is refused instead of written past it, and nothing is stated for a run that does what C leaves undefined.
- Transfer.ServerRuns: the request itself is the event that takes a new connection to its transfer; what it asks for is the subject of `Receive`.
- Response.ServedFile: the header of a file of 2^31 bytes or more is not stated, because its size is an `int`.
- Bytes are `char` values below 256 by convention; the tables give larger values the result of a byte the C code never sees.
