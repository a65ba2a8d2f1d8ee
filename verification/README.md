# sylar: a verified model of its core

This project models the parts of the sylar server framework where state, arithmetic and interleaving meet, and proves
what they promise. `dafny verify dfyconfig.toml` checks the whole project (Dafny 4.11).

| part | files | what it is about |
|---|---|---|
| HTTP parser | `HttpMachine`, `HttpRun`, `HttpExecute`, `HttpParser`, `HttpFraming`, `HttpHeaders`, `HttpMessages`, `HttpMethods` | `http_parser_execute` as a machine that takes one octet at a time, the buffer loop with its bulk scans and marks that refines it, message framing from the header lines on, and the method table |
| URLs | `Sections`, `Url`, `UrlFacts`, `Uri`, `UriRoundTrip`, `UriIdentity` | `http_parser_parse_url` and `http_parse_host` as machines that cut a text into sections, and `Uri` as their printer |
| ByteArray | `Blocks`, `ByteArray`, `ByteArrayRuns`, `Numbers`, `TypedValues`, `ByteCodec` | the linked list of blocks as one flat byte array with a cursor, iovec views, and the typed writers and readers |
| Streams | `Streams` | `readFixSize` and `writeFixSize` over a socket that moves what it likes |
| Scheduler | `Scheduler`, `FiberRuns` | the task queue, every interleaving of the worker threads, and the fibers that they resume |
| IO manager | `IOManager`, `RegistryRuns` | the event registry, what epoll was told, and every interleaving of the critical sections |
| Timers | `Timers` | the ordered timer set, in the documented and in the written order, and the wake-up protocol |
| Percent-encoding and parameters | `UrlCodec`, `QueryParams` | the lazy copying loops and the `key=value` splitter |

`Ascii` holds the character classes and digits, `Sequences` a fact about sequences. Code that changes things step by step is a class or a method with a loop, proved
against a specification; what it promises is then proved of the specification. Octets of texts are `char`s below 256,
bytes of ByteArray are integers below 256. Fixed-width arithmetic is written out wherever it can matter.

## How the main results fit together

- **Flat array.** `ByteArrays.ByteArray.Valid` ties the heap of nodes to a sequence of blocks. Each method says what it does to
  the flat array `State()`, memory the allocator left included. `ByteArrayRuns.Run` puts this together for any sequence of operations.
- **Typed values.** `ByteCodec.WriteThenRead` writes any list of values, each in its own byte order and on a machine of
  either byte order, from any position, and reads the same values back.
- **Split independence.** `HttpRun.RunConcat` gives it for the byte machine; `HttpParserObject.HttpParser.Execute` shows that one
  call on a buffer, with its bulk scans and one mark, does what the byte machine does; `ExecuteAll` joins the two.
- **URLs.** A machine that only moves forward through its sections determines the bounds of all of them (`Sections`). The
  parser's fields are these sections; the printed text of a URI is cut where it was put together.
- **Framing.** `HttpMessages.ChunkedMessage` and `LengthMessage` go from the header lines, with the framing one anywhere among them and
  in any spelling of its name, to the body and the trailer that the callbacks see.
- **Scheduler.** An invariant over every interleaving: once the last idle fiber has ended nothing is queued or runs. `CanEndIff` says
  from which states all workers can still leave, and `FiberRuns.CanAbortIff` from which the assertion of `resume` can fail.
- **Registry.** The methods of `IOManager` compute the critical sections, which are functions on a registry; `RegistryRuns` runs these
  in every interleaving of threads that look, resize and lock, and `HarmlessIff` is the exact condition under which it stays sound.
- **Timers.** A class invariant that every operation keeps, and runs of any length. The comparator is a parameter, so each promise is
  stated for the documented order and with its exact condition for the written one.

## Where the code differs from what it says, and what is proved of it

- The hex table of the HTTP parser lists 128 entries for 256 octets, so octets from 0x80 on count as the digit 0 in a chunk size
  (`ChunkSizeAcceptsNonHex`, `SizeLineIsHexIff`).
- The bulk scan of a header value skips the octet at `max_header_size`. The header limit has been passed by then, so the run fails
  either way; the model keeps the scan as it is.
- `Uri::toString` loses the brackets of an IP literal and prints `://` without a scheme. The round trip holds exactly when there is a scheme and
  every octet of the host is a host character (`UriRoundTripIff`); both kinds of failing input are accepted (`LiteralDoesNotReadBack`,
  `PathDoesNotReadBack`).
- `UrlDecode(UrlEncode(s))` is not `s` when a space was written as `+` and read without that flag (`UrlRoundTrip`).
- `=` is not escaped, so a key that holds one is cut at the first and the rest goes to the value (`JoinParseIsCut`, `JoinParseIff`).
- The timer comparator compares the left deadline with itself and so orders by address alone. Then the first timer is the earliest
  exactly when some timer is both earliest and at the lowest address (`WrittenFirstIsEarliestIff`), and the timers taken are those that
  are due exactly under a condition on addresses and deadlines (`TakesDueIff`). `LeavesTooEarly`, `HiddenBehindLater`,
  `MissedByLowProbe`, `Oversleeps` and `RunsTooEarly` give inputs.
- `Timer::refresh` and the recurring timers go back into the set without a look at the front. That keeps the promise to the sleeper
  exactly when they do not come before what was reported (`Refresh`, `ListExpired`), as they never do in time and without a wrap
  (`StaysAlert`). `RefreshWraps` and `LateInFirstHour` give inputs at which they do.
- `Timer::cancel` erases the iterator that `find` returned without looking at it: a timer that was cancelled must not be cancelled again.
- `addEvent` looks at the size of the context vector under one lock, resizes it under another and registers under a third. In a race
  the resize can cut the vector. That is harmless exactly when nobody waits on a descriptor that it cuts off and no thread is about to
  register on one (`HarmlessIff`), and always when one thread grows the vector at a time (`OneByOneIsSafe`). `ResizeLosesWaiter` gives
  the interleaving that loses a registration, and `AddedTwice` what comes of it.
- `delEvent` takes the waiter away and leaves its bit set; `DeleteIsSoundIff` says that the registry is sound afterwards exactly when it
  returned false. Nothing in the repository calls it, and the runs have no step for it.
- `idle` does not cut the reported events to the registered ones; `HandleIsSound` and `AbortsIff` say exactly when an assertion fails,
  and `OvertakenFromStart` gives the interleaving.
- A fiber can be taken by two workers, and `Fiber::resume` then fails its assertion (`TwiceScheduledAborts`). Without any further
  scheduling that can happen exactly when one worker has a fiber that another has or may still take, or two may take it from two
  entries (`CanAbortIff`); scheduling a fiber brings this about exactly under the condition of `Adds` (`ScheduleClashIff`,
  `NeverAborts`, `OneTooMany`). So it never happens with one worker, to a fiber that is always pinned to the same one, or when
  fibers are scheduled only while they are free (`OneWorkerNeverAborts`, `PinnedNeverAborts`, `PoliteNeverAborts`).
- The `tickle_me` flag of `Scheduler::run` starts out true and is never cleared; the iterator that is used after the erase only feeds this flag.
- A task pinned to a worker that has left, or leaves without another look, stays in the queue for good and keeps `stop` waiting
  (`DoomedBlocksStop`, `DoomedIsReachable`). From every other sound state all workers can leave (`CanEndIff`).
- The positioned `read` of ByteArray starts from the block of the cursor, and its check subtracts unsigned sizes. It gives the bytes at
  the position, or the exception, whatever the bytes are, exactly under `ReadsRight` (`ReadsRightIff`): inside the size, where the length
  is refused or there is a current block and it is the position's; past the size, only where the length is so large that the wrapped
  difference refuses it too. `WrongBlock` and `PastTheSize` give inputs.
- `readFixSize` and `writeFixSize` return a `size_t` as an `int` and count in an `int64_t`; both conversions are in the model.

## Model

| member | source | states |
|---|---|---|
| `HttpMachine.StepKeepsInv` | sylar/http/http-parser/http_parser.c:638-2084 | from any state that the invariant allows, no octet makes an assertion of the parser fail, and counters, indices, status and lengths stay in their C types; the invariant is kept |
| `HttpRun.RunKeepsInv` | sylar/http/http-parser/http_parser.c:710-2062 | so after every input |
| `HttpRun.RunConcat` | sylar/http/http-parser/http_parser.c:682-711 | feeding a text in two pieces ends as feeding it whole: state, flags, lengths, counters, delivered data and what is left after an exit; of a failed run that it fails, without its errno |
| `HttpExecute.PerformTokens` | sylar/http/http-parser/http_parser.c:104-142 | marks and data callbacks deliver exactly the octets of each element, in order |
| `HttpExecute.StepOpens` | sylar/http/http-parser/http_parser.c:682-711 | at most one mark is set at any time, and it is the one that the state calls for |
| `HttpExecute.ScanField` | sylar/http/http-parser/http_parser.c:1248-1382 | the bulk scan of a header field is the byte machine folded over the octets it passes, and stops at the first that is no token |
| `HttpExecute.ScanValue` | sylar/http/http-parser/http_parser.c:1469-1668 | the same for header values, with the fast path; it passes the header limit only where the run fails |
| `HttpExecute.FastField` | sylar/http/http-parser/http_parser.c:1258-1265 | the fast path over a field skips only tokens that leave the state alone |
| `HttpExecute.FastValue` | sylar/http/http-parser/http_parser.c:1498-1516 | the search for CR or LF skips only octets that leave the state alone |
| `HttpExecute.FoldReached` | sylar/http/http-parser/http_parser.c:1248-1382 | octets scanned in bulk take the run where stepping takes it |
| `HttpExecute.OverranFails` | sylar/http/http-parser/http_parser.c:1498-1516 | a scan that passed the header limit belongs to a run that fails |
| `HttpExecute.BodyReached` | sylar/http/http-parser/http_parser.c:1873-1907 | a body advanced in bulk is the body octet by octet |
| `HttpExecute.BodyRound` | sylar/http/http-parser/http_parser.c:1873-1907 | the round that advances by the smaller of the length and the buffer keeps run and callbacks in step |
| `HttpExecute.Round` | sylar/http/http-parser/http_parser.c:710-2062 | every round of the buffer loop does |
| `HttpParserObject.Loop` | sylar/http/http-parser/http_parser.c:710-2084 | the loop over a buffer, with the callback for the mark left at its end, does what the byte machine does |
| `HttpParserObject.HttpParser.Execute` | sylar/http/http-parser/http_parser.c:638-2084 | so does a call, with the cases of an earlier error and of the end of the stream |
| `HttpParserObject.HttpParser.ExecuteAll` | sylar/http/http-parser/http_parser.c:638-2084 | for every split of a text into non-empty buffers the outcome is that of the whole text |
| `HttpFraming.ChunkSizeExact` | sylar/http/http-parser/http_parser.c:1909-1976 | a chunk size is the exact value of its digits, or refused before it could wrap |
| `HttpFraming.ChunkSizeNeverSentinel` | sylar/http/http-parser/http_parser.c:1925-1976 | and never the ULLONG_MAX that stands for an absent length |
| `HttpFraming.ChunkSizeAcceptsNonHex` | sylar/http/http-parser/http_parser.c:189-205 | an octet from 0x80 on is taken for the digit 0 |
| `HttpFraming.SizeLineIsHexIff` | sylar/http/http-parser/http_parser.c:1909-1957 | a size line of which the parser took every octet for a digit has the value of its digits, and is made of hex digits exactly when it has no octet from 0x80 on |
| `HttpFraming.ContentLengthExact` | sylar/http/http-parser/http_parser.c:1423-1437 | a Content-Length is the exact value of its digits, never the sentinel, or refused |
| `HttpFraming.LengthDelivers` | sylar/http/http-parser/http_parser.c:1873-1899 | with a length of N exactly the next N octets are body and the message ends on the last (section 3.3.3 of RFC 7230) |
| `HttpFraming.ChunkRun` | sylar/http/http-parser/http_parser.c:1909-2045 | one chunk: its header, its octets as body, its end |
| `HttpFraming.PlainIsSpelled` | sylar/http/http-parser/http_parser.c:1909-1976 | every payload below 2^64 - 16 octets has such a spelling |
| `HttpHeaders.HeaderNameExact` | sylar/http/http-parser/http_parser.c:1198-1382 | a field name is delivered as it stands, and is taken for content-length, transfer-encoding, upgrade or connection exactly when it spells that in upper or lower case |
| `HttpHeaders.ChunkedValueExact` | sylar/http/http-parser/http_parser.c:1399-1668 | a Transfer-Encoding is taken for chunked exactly when its value spells that in upper or lower case, with nothing but spaces behind it |
| `HttpMessages.OthersGoOn` | sylar/http/http-parser/http_parser.c:1198-1824 | any number of header lines whose names mean nothing to the parser are delivered as they stand and leave flags and length alone |
| `HttpMessages.ChunkedDelivers` | sylar/http/http-parser/http_parser.c:1826-2045 | any payload cut into any non-empty chunks (section 4.1 of RFC 7230), with sizes spelled in any way, any extensions and any trailer of unknown fields, is delivered as the payload, message_complete fires once, on the last octet, and the parser is ready for the next message |
| `HttpMessages.ChunkedMessage` | sylar/http/http-parser/http_parser.c:1198-2045 | so is one whose headers say chunked, in any spelling and among any unknown lines, from the first header line on |
| `HttpMessages.LengthMessage` | sylar/http/http-parser/http_parser.c:1198-1899 | and with a header line that gives a length other than zero exactly that many octets are the body |
| `HttpMethodTable.GuessSpells` | sylar/http/http-parser/http_parser.c:920-1014 | after each accepted octet the text so far is a prefix of the guessed method |
| `HttpMethodTable.AcceptsExactlyMethods` | sylar/http/http-parser/http_parser.c:920-1014 | the table accepts exactly the listed methods, each as itself |
| `HttpMethodTable.RequestMethodExact` | sylar/http/http-parser/http_parser.c:920-1014 | the parser takes a method at the space exactly when it is spelled |
| `UrlParser.UrlLaw` | sylar/http/http-parser/http_parser.c:490-636 | the URL machine only moves forward through the sections of a URL, and each octet has the class of its section |
| `UrlParser.HostLaw` | sylar/http/http-parser/http_parser.c:2176-2256 | the same for the host machine |
| `UrlParser.NeverBack` | sylar/http/http-parser/http_parser.c:2402-2404 | the "Unexpected state" branch is unreachable |
| `UrlParser.ScanUrl` | sylar/http/http-parser/http_parser.c:2346-2419 | the loop over a URL gives the non-empty sections of the machine as fields, 16-bit offsets and lengths included, and whether there is an '@' |
| `UrlParser.ParseHost` | sylar/http/http-parser/http_parser.c:2258-2338 | the loop over the server section gives user information, host and port as the sections of the host machine |
| `UrlParser.ParsePort` | sylar/http/http-parser/http_parser.c:2438-2462 | the port is the decimal value of its digits or, past 65535, refused |
| `UrlParser.ParseUrl` | sylar/http/http-parser/http_parser.c:2345-2466 | what is accepted, and as what, for URLs and CONNECT targets |
| `UrlFacts.FieldsInOrder` | sylar/http/http-parser/http_parser.c:2345-2466 | the fields of an accepted URL are in bounds, not empty, disjoint, and stand in the order scheme, user information, host, port, path, query, fragment |
| `UrlFacts.RestIsDelimiters` | sylar/http/http-parser/http_parser.c:2345-2466 | every octet outside them is a delimiter |
| `UrlFacts.PortIsDecimal` | sylar/http/http-parser/http_parser.c:2438-2462 | the port field is all digits and its value is theirs |
| `Uris.DigitsRoundTrip` | sylar/uri.cc:100-115 | a printed port reads as itself |
| `Uris.Create` | sylar/uri.cc:14-73 | the parts of an accepted URL, with the scheme's own port where none is given |
| `Uris.PartsAreOk` | sylar/uri.cc:14-73 | what the parts of a URI that Create made consist of |
| `UriRoundTrip.PrintedIsCut` | sylar/http/http-parser/http_parser.c:490-636 | the URL machine cuts a printed text where it was put together |
| `UriRoundTrip.ServerAccepted` | sylar/http/http-parser/http_parser.c:2176-2338 | and the host machine a printed authority |
| `UriIdentity.PlainHostReadsBack` | sylar/uri.cc:14-115 | with a scheme and a plain host, parsing what toString prints gives the same scheme, user information, host, port, path, query and fragment (section 3 of RFC 3986) |
| `UriIdentity.NoSchemeIsRefused` | sylar/uri.cc:100-115 | what toString prints without a scheme is refused |
| `UriIdentity.NoBracketNoLiteral` | sylar/http/http-parser/http_parser.c:2176-2256 | without a bracket the host machine takes only host characters for the host |
| `UriIdentity.UriRoundTripIff` | sylar/uri.cc:14-115 | for every URL that Create accepts the round trip holds exactly when there is a scheme and the host has only host characters |
| `UriIdentity.LiteralIsRead` | sylar/uri.cc:14-73 | a URL with an IP literal is accepted, and the host is the literal without its brackets |
| `UriIdentity.LiteralDoesNotReadBack` | sylar/uri.cc:14-115 | if the literal holds a colon, what toString prints does not read back: http://[::1]/ is such a URL |
| `UriIdentity.PathDoesNotReadBack` | sylar/uri.cc:14-115 | a path alone is accepted, and what toString prints of it does not read back |
| `ByteArrays.ByteArray.constructor` | sylar/bytearray.cc:33-41 | one block, nothing in it |
| `ByteArrays.ByteArray.CursorIsBlock` | sylar/bytearray.cc:345-407 | position <= size <= capacity = blocks * base size, and the block pointer is block position / base size, null exactly at the capacity |
| `ByteArrays.ByteArray.AddCapacity` | sylar/bytearray.cc:499-528 | room for the bytes: whole blocks more, old bytes untouched, the block pointer kept right |
| `ByteArrays.ByteArray.Write` | sylar/bytearray.cc:345-378 | the buffer stands at the old cursor across blocks, all else is as it was, size and capacity follow |
| `ByteArrays.ByteArray.Read` | sylar/bytearray.cc:380-407 | the bytes at the cursor, or out_of_range and nothing changed |
| `ByteArrays.ByteArray.ReadAt` | sylar/bytearray.cc:409-437 | which bytes the positioned read really returns, for every length and position: the wrapped difference, the null block at the end of the capacity and the one behind the last block included |
| `FlatArrays.ReadsRightIff` | sylar/bytearray.cc:409-437 | it returns the bytes at the position, or the exception where there are not so many, whatever the bytes are, exactly when the position is past the size and the length above the wrapped difference, or it is inside and the length is refused or the block is the cursor's |
| `FlatArrays.WrongBlock` | sylar/bytearray.cc:414-417 | a read at 0 with the cursor in the second block returns a byte of the second |
| `FlatArrays.PastTheSize` | sylar/bytearray.cc:410-412 | a read past the size is not refused and returns what was never written |
| `ByteArrays.ByteArray.ToString` | sylar/bytearray.cc:530-538 | the bytes from the cursor to the size |
| `ByteArrays.ByteArray.SetPosition` | sylar/bytearray.cc:439-455 | the cursor of the flat array, its block found by the walk; past the capacity it throws |
| `ByteArrays.ByteArray.Clear` | sylar/bytearray.cc:332-343 | one block is left, and nothing in it |
| `ByteArrays.ByteArray.GetReadBuffers` | sylar/bytearray.cc:556-585 | windows that tile the readable bytes from the cursor, up to the length, in order and without a gap |
| `ByteArrays.ByteArray.GetWriteBuffers` | sylar/bytearray.cc:624-652 | the same over fresh room |
| `ByteArrays.ByteArray.Gather` | sylar/bytearray.cc:556-585 | what a send takes from the windows are the flat bytes |
| `ByteArrays.ByteArray.Scatter` | sylar/bytearray.cc:624-652 | what a receive puts into them overwrites the flat bytes |
| `ByteArrayRuns.Run` | sylar/bytearray.cc:332-652 | every sequence of write, read, setPosition, clear and buffer operations is a run of the flat array with the same results |
| `ByteArrayRuns.CapacityIsBlocks` | sylar/bytearray.cc:499-528 | along a run the capacity is a whole number of blocks and shrinks only by clear |
| `ByteArrayRuns.GrowthIsLeast` | sylar/bytearray.cc:499-528 | never more blocks are added than needed |
| `ByteArrayRuns.ReadBack` | sylar/bytearray.cc:345-407 | what was written is read back from its position, and every other byte that was there stays |
| `Numbers.FixedIsPortable` | sylar/bytearray.cc:64-111 | the stored bytes are the number in the chosen byte order, whatever the machine's |
| `Numbers.FixedRoundTrip` | sylar/bytearray.cc:204-246 | and read back on any machine |
| `Numbers.WriteGroups` | sylar/bytearray.cc:142-166 | the loops of writeUint32 and writeUint64 give the base-128 groups |
| `Numbers.VarintLength` | sylar/bytearray.cc:142-166 | a varint has k bytes or fewer exactly when its value has 7k bits or fewer |
| `Numbers.VarintFits` | sylar/bytearray.cc:142-166 | at most 5 bytes for 32 bits and 10 for 64, so the local arrays suffice |
| `Numbers.VarintRoundTrip` | sylar/bytearray.cc:254-286 | decoding takes exactly the encoded bytes and gives the value, whatever follows |
| `Numbers.VarintBounds` | sylar/bytearray.cc:254-286 | for any bytes the groups do not overlap, the value fits its type, and the byte limit holds |
| `Numbers.ZigzagIs` | sylar/bytearray.cc:113-127 | the zigzag code is 2v or -2v-1, the least integer included |
| `Numbers.ZigzagRoundTrip` | sylar/bytearray.cc:113-135 | decoding undoes encoding |
| `Numbers.ZigzagOnto` | sylar/bytearray.cc:113-135 | and encoding decoding |
| `TypedValues.ItemReadsBack` | sylar/bytearray.cc:204-330 | a value whose bytes stand at the cursor is read as itself and the cursor ends behind it |
| `TypedValues.TextReadsBack` | sylar/bytearray.cc:300-330 | what any text comes back as: cut to its length modulo the prefix, and a null block for nothing at the capacity |
| `TypedValues.LongTextIsCut` | sylar/bytearray.cc:180-198 | a text comes back whole exactly when its length fits the prefix |
| `TypedValues.ItemKeeps` | sylar/bytearray.cc:204-330 | whatever bytes a reader meets it moves the cursor forward inside the size and changes nothing else |
| `ByteCodec.WriteItem` | sylar/bytearray.cc:64-198 | each typed writer writes the bytes of its value |
| `ByteCodec.ReadGroups` | sylar/bytearray.cc:254-286 | the loops of readUint32 and readUint64 decode the bytes at the cursor, or stop where they run out |
| `ByteCodec.ReadItem` | sylar/bytearray.cc:204-330 | each typed reader does what the flat array says, exceptions included |
| `ByteCodec.WriteThenRead` | sylar/bytearray.cc:64-330 | any list of values that fit, written from any position and read back from there, gives the same values across blocks |
| `Streams.Read` | sylar/streams/socket_stream.cc:28-39 | one receive: what came stands at the old cursor, which moved past it |
| `Streams.Write` | sylar/streams/socket_stream.cc:48-59 | one send: what went are the next readable bytes, and the cursor moved past them |
| `Streams.Advance` | sylar/streams/socket_stream.cc:35-38 | the setPosition after a transfer is never out of range |
| `Streams.ReadFixSize` | sylar/stream.cc:19-29 | whatever the short transfers, the bytes come in order at the cursor; success means exactly `length`, and it is sure when every transfer moves something and enough is sent |
| `Streams.WriteFixSize` | sylar/stream.cc:46-56 | the same for sending; with willing transfers it succeeds exactly when `length` bytes are readable |
| `TaskQueue.Scheduler.TakeTask` | sylar/scheduler.cc:165-200 | the scan takes the first task that the thread may run, and its assertion holds |
| `TaskQueue.Scheduler.ScheduleNoLock` | sylar/scheduler.h:80-87 | an empty task is dropped, any other goes to the end; a wake-up is asked for when the queue was empty |
| `SchedulerRuns.StepKeepsInv` | sylar/scheduler.cc:151-239 | every step of every interleaving keeps the invariant: the active count is the number of threads that hold a task, tasks are conserved and in order, and once all idle fibers have ended nothing is queued or runs |
| `SchedulerRuns.NothingLeftBehind` | sylar/scheduler.cc:151-239 | when the last worker has left run, every task ever scheduled has been taken, pinned ones too |
| `SchedulerRuns.AdderLooksAgain` | sylar/scheduler.cc:165-231 | whoever schedules a task looks through the queue again, and finds nothing for itself, before it leaves |
| `SchedulerRuns.StoppingMeansDone` | sylar/scheduler.cc:135-145 | a true stopping means that nothing is queued or in flight |
| `SchedulerRuns.TakenOnce` | sylar/scheduler.cc:165-193 | every task is queued once or was taken once, a pinned one by its own thread |
| `SchedulerRuns.FirstInFirstOut` | sylar/scheduler.cc:165-193 | callbacks for one thread, or for any, are taken in the order of scheduling |
| `SchedulerRuns.DoomedBlocksStop` | sylar/scheduler.cc:170-176 | a task for a worker that has left, or leaves without another look, stays queued in every continuation, and some worker never leaves |
| `SchedulerRuns.CanEndIff` | sylar/scheduler.cc:151-239 | from any sound state some continuation ends with all workers out of run exactly when no queued task is so doomed |
| `SchedulerRuns.DoomedIsReachable` | sylar/scheduler.cc:151-239 | such a state can come about after stop |
| `FiberRuns.CanAbortIff` | sylar/fiber.cc:140-143 | from any sound state some continuation without further scheduling fails the assertion of resume exactly when some fiber clashes: one worker has it and another has or runs it, or may take an entry of it; or two workers may take two entries |
| `FiberRuns.StepKeepsApart` | sylar/scheduler.cc:151-239 | no step makes a fiber clash but its scheduling, and no resume of a fiber that does not clash fails |
| `FiberRuns.ScheduleClashIff` | sylar/scheduler.h:80-87 | scheduling a fiber makes it clash exactly when some worker may take it while another has it or may take an entry of it |
| `FiberRuns.NeverAborts` | sylar/scheduler.cc:151-239 | a run from the start never fails when no fiber is scheduled in such a state |
| `FiberRuns.OneTooMany` | sylar/scheduler.cc:151-239 | and one that does schedule so has a continuation without further scheduling that fails |
| `FiberRuns.OneWorkerNeverAborts` | sylar/scheduler.cc:151-239 | with one worker no run fails |
| `FiberRuns.PinnedNeverAborts` | sylar/scheduler.cc:170-176 | no run fails on a fiber that is always scheduled for one and the same worker |
| `FiberRuns.PoliteNeverAborts` | sylar/fiber.cc:140-143 | nor do runs that schedule fibers only while they are free |
| `FiberRuns.TwiceScheduledAborts` | sylar/fiber.cc:140-143 | a run from the start that schedules a fiber twice and fails |
| `EventRegistry.IOManager.EpollCtl` | sylar/iomanager.cc:183-195 | what the kernel is told, with a note of every ADD, MOD and DEL that it must refuse |
| `EventRegistry.IOManager.ContextResize` | sylar/iomanager.cc:110-119 | the vector has the size asked for, longer or shorter, old places keep their contexts and new ones get fresh contexts |
| `EventRegistry.IOManager.GrowFor` | sylar/iomanager.cc:165-170 | the resize of addEvent, after which the vector reaches the descriptor |
| `EventRegistry.IOManager.RegisterEvent` | sylar/iomanager.cc:171-214 | the locked part of addEvent is the section that the lemmas and the runs use |
| `EventRegistry.IOManager.TriggerEvent` | sylar/iomanager.cc:139-156 | the waiter goes to the scheduler, its bit and its place are cleared |
| `EventRegistry.IOManager.CancelEvent` | sylar/iomanager.cc:263-287 | the same for cancelEvent |
| `EventRegistry.IOManager.CancelEvents` | sylar/iomanager.cc:299-329 | the same for cancelAll, whose last assertion holds whatever the state |
| `EventRegistry.IOManager.HandleReport` | sylar/iomanager.cc:425-469 | the same for one report in idle |
| `EventRegistry.IOManager.DelEvent` | sylar/iomanager.cc:225-251 | the same for delEvent |
| `EventRegistry.StartIsSound` | sylar/iomanager.cc:92-92 | the registry with its 32 contexts is sound: contexts are filled as their bits say, the kernel watches exactly the registered events and points at their contexts, nobody waits on a context that was cut off, and every registration is pending or scheduled once |
| `EventRegistry.RegisterIs` | sylar/iomanager.cc:171-214 | in a sound registry a registration fails its assertion exactly when the event has a waiter, fails otherwise exactly when the kernel refuses, and else adds that waiter alone |
| `EventRegistry.RegisterIsSound` | sylar/iomanager.cc:171-214 | and the registry stays sound |
| `EventRegistry.CancelIsSound` | sylar/iomanager.cc:254-288 | exactly the waiter of the event is scheduled, when there is one and the kernel agrees, and the registry stays sound |
| `EventRegistry.CancelAllIsSound` | sylar/iomanager.cc:290-330 | exactly the waiters of the descriptor are, reader first, none is left, and the registry stays sound |
| `EventRegistry.HandleIsSound` | sylar/iomanager.cc:425-469 | exactly the waiters of the reported events are, and the registry stays sound; an assertion fails exactly when one of them has a waiter and one has none |
| `EventRegistry.DeleteIsSoundIff` | sylar/iomanager.cc:216-252 | the registry is sound afterwards exactly when delEvent returns false; otherwise the next registration of the event fails its assertion |
| `EventRegistry.ResizeIsSoundIff` | sylar/iomanager.cc:110-119 | a resize keeps the registry sound exactly when nobody waits on a descriptor that it cuts off |
| `EventRegistry.CutOffIsInert` | sylar/iomanager.cc:158-330 | on a context that was cut off nothing is found to cancel or to resume, and a registration breaks the registry |
| `EventRegistry.PendingIsBits` | sylar/iomanager.cc:197-201 | the count of pending events is the number of event bits over all contexts |
| `EventRegistry.NeverTwice` | sylar/iomanager.cc:139-156 | every registration is pending or was scheduled, and never twice |
| `EventRegistry.RaceResumesOnce` | sylar/hook.cc:133-162 | readiness and time-out racing for a waiter resume it once, whichever is first |
| `EventRegistry.OvertakenAsserts` | sylar/iomanager.cc:425-469 | a report of both events overtaken by the cancellation of one fails the assertion |
| `RegistryRuns.StepKeepsSafe` | sylar/iomanager.cc:158-469 | every step of every interleaving of looks, resizes, reports and locked sections keeps the registry sound, and whoever is about to register on a context that the vector has, up to a failed assertion; a resize does where it is harmless |
| `RegistryRuns.RunIsSafe` | sylar/iomanager.cc:158-469 | so does every run |
| `RegistryRuns.HarmlessIff` | sylar/iomanager.cc:160-170 | a resize cuts off no descriptor with a waiter and none that a thread is about to register on exactly when no continuation, in which later resizes are harmless, breaks the registry |
| `RegistryRuns.LostRegistration` | sylar/iomanager.cc:171-214 | a registration on a context that was cut off succeeds and leaves the registry unsound |
| `RegistryRuns.InTurnIsHarmless` | sylar/iomanager.cc:165-170 | a resize is harmless when the vector is still too short for the descriptor |
| `RegistryRuns.OneByOneIsSafe` | sylar/iomanager.cc:158-469 | no run breaks the registry in which one thread at a time is between its look and its resize |
| `RegistryRuns.RunsFromStart` | sylar/iomanager.cc:69-95 | from the start every run with harmless resizes, and every run in which one thread grows the vector at a time, is safe |
| `RegistryRuns.WaiterIsFound` | sylar/iomanager.cc:160-164 | in a sound registry every waiter stands where a look at the vector and the kernel's pointer lead |
| `RegistryRuns.AbortsIff` | sylar/iomanager.cc:158-469 | the exact steps at which an assertion fails |
| `RegistryRuns.ResizeLosesWaiter` | sylar/iomanager.cc:158-214 | for any two descriptors, one half as large again as the other, an interleaving of two addEvents leaves a waiter pending and watched that no cancelEvent or cancelAll finds |
| `RegistryRuns.AddedTwice` | sylar/iomanager.cc:158-214 | after which the next addEvent on its descriptor adds to epoll what it watches |
| `RegistryRuns.OvertakenRun` | sylar/iomanager.cc:254-469 | in any safe state in which a descriptor has both waiters, a report of both that a cancellation of one overtakes fails the assertion |
| `RegistryRuns.OvertakenFromStart` | sylar/iomanager.cc:158-469 | so two threads bring it down from the start, on any of the first descriptors |
| `TimerSet.WrittenFirstIsEarliestIff` | sylar/timer.cc:15-32 | with the written comparator the first timer is the earliest exactly when some timer is both earliest and at the lowest address |
| `TimerSet.TakesDueIff` | sylar/timer.cc:171-175 | lower_bound at an address and the loop take exactly the due timers: always with the documented comparator; with the written one exactly when either the timer at the lowest address is not due and none is, or it is, all below the address are, and above it no due one stands behind one that is not due just now |
| `TimerSet.LeavesTooEarly` | sylar/timer.cc:171-175 | two timers in the same order by address and by deadline, of which one that is due at 200 leaves at 150 |
| `TimerSet.HiddenBehindLater` | sylar/timer.cc:162-175 | a due timer hidden behind one that is not |
| `TimerSet.MissedByLowProbe` | sylar/timer.cc:171-175 | in any set an overdue first timer is missed when the address of the probe is lower |
| `Timers.TimerManager.AddTimer` | sylar/timer.cc:101-118 | the set stays in order, whatever time the call has read and even if the deadline wraps; nobody sleeps past the new timer, with the written order exactly when the sleeper is woken or was told of no later one |
| `Timers.TimerManager.Cancel` | sylar/timer.cc:44-52 | the timer leaves the set |
| `Timers.TimerManager.Refresh` | sylar/timer.cc:54-67 | the deadline changes out of the set; nobody sleeps past it exactly when a wake-up is on its way or it does not come before what was reported, as it never does in time and without a wrap |
| `Timers.TimerManager.Reset` | sylar/timer.cc:69-93 | the new period from now or from the old start, through the insertion that wakes the sleeper; the promise in either order as for addTimer |
| `Timers.TimerManager.GetNextTimer` | sylar/timer.cc:132-146 | the time to the first deadline, which is the earliest in the documented order; in either order nobody sleeps past a timer exactly when the first is due or the earliest |
| `Timers.TimerManager.DetectClockRollover` | sylar/timer.cc:194-201 | the clock went back by more than an hour, with the unsigned difference |
| `Timers.TimerManager.CountExpired` | sylar/timer.cc:171-175 | lower_bound at any address and the loop find exactly the timers that are due, in the written order a prefix by address |
| `Timers.TimerManager.ListExpired` | sylar/timer.cc:148-192 | exactly the due timers leave, with the written order exactly under the condition of TakesDue, and all on a rollover; each callback once and in order; exactly the recurring ones come back at now plus their period; none is lost; nobody sleeps past a timer afterwards exactly when a wake-up is on its way or none that came back comes before what was reported, as none does when the call comes in time, or late and takes only due timers, and no deadline wraps |
| `Timers.StaysAlert` | sylar/timer.cc:183-191 | a recurring timer that comes back in time, or from among the due, never comes before what was reported |
| `Timers.Drive` | sylar/timer.cc:44-201 | any run of calls in the order of their critical sections, where addTimer may come with a time of any age and listExpiredCb with one up to an hour old, keeps the order and leaves no sleeper past a timer, as long as no sum of a time and a period wraps and the clock is past its first hour where listExpiredCb is late |
| `Timers.RefreshWraps` | sylar/timer.cc:54-67 | a refresh whose deadline wraps leaves the sleeper past its timer |
| `Timers.LateInFirstHour` | sylar/timer.cc:148-201 | so does a listExpiredCb that is late in the first hour of the clock |
| `Timers.Oversleeps` | sylar/timer.cc:101-146 | with the written order a sleeper is not woken for an earlier timer at a higher address |
| `Timers.RunsTooEarly` | sylar/timer.cc:148-192 | and a timer runs before it is due although addresses and deadlines are in the same order |
| `UrlCodec.UrlEncode` | sylar/util.cc:445-474 | the lazy loop encodes |
| `UrlCodec.UrlDecode` | sylar/util.cc:476-505 | the lazy loop decodes |
| `UrlCodec.UrlRoundTrip` | sylar/util.cc:445-505 | decoding undoes encoding exactly unless a space was written as a plus and read without the flag (section 2.1 of RFC 3986) |
| `UrlCodec.EncodedOctets` | sylar/util.cc:399-421 | what an encoded text is made of |
| `QueryParams.HttpRequest.InitQueryParam` | sylar/http/http.cc:199-233 | the pairs of the query, decoded, inserted once |
| `QueryParams.JoinParseIsCut` | sylar/http/http.cc:204-230 | joining encoded pairs and parsing cuts every key at its first '=', gives the rest to the value, and changes nothing else |
| `QueryParams.JoinParseIff` | sylar/http/http.cc:204-230 | so the pairs come back exactly when no key holds an '=' |
| `QueryParams.MapHoldsIff` | sylar/http/http.cc:59-61 | the map holds every pair exactly when keys equal up to case and NUL carry equal pairs |
| `QueryParams.MapHoldsOnly` | sylar/http/http.cc:59-61 | and nothing else |
| `QueryParams.QueryRoundTrip` | sylar/http/http.cc:199-233 | the whole way from pairs to parameters: all pairs are held exactly when no key holds an '=' and keys equal up to case and NUL carry equal pairs, and the parameters are pairs as they are cut and nothing else |

## Left out

- HttpParserObject.HttpParser.ExecuteAll: says nothing past a protocol upgrade, and of a run that fails only that it fails: how far its callbacks got when the header limit is passed depends on the split.
- HttpParserObject.HttpParser.Execute: takes buffers up to nearly 4 GiB; beyond that the 32-bit count of a bulk scan would wrap. Callbacks always return 0, so there is no pause.
- `lenient_http_headers`, which sylar leaves off.
- sylar/http/http_parser.cc, the C++ wrapper: it overwrites URL and header field on every callback.
- UrlParser.ParsePort: on URLs of more than 65535 octets the 16-bit offsets may point at octets that are not digits; the model counts those as zero.
- Uris.Create: only for texts of at most 65535 octets, for the same reason.
- `Uri::createAddress` and the stream output of a URI: plumbing.
- The positioned `getReadBuffers`: it clamps against the remainder from the cursor.
- `writeToFile` and `readFromFile`: file I/O with a length formula that is right only for aligned reads.
- ByteArrays.ByteArray.Read: a read of nothing needs a current block, as in the source, where it looks at a null pointer otherwise.
- Memory: `new` never fails, and freed blocks are only dropped.
- Floats and doubles are written by their bits, which the model takes as given.
- The variants of `readFixSize` and `writeFixSize` on plain buffers: the same loops without a cursor.
- Fiber switching, stacks and reference counts: a fiber runs or does not. That a fiber has ended, which resume also refuses, is not modelled.
- The batch form of `schedule`, whose loop never advances.
- Thread identities are numbered from 0 in the scheduler model.
- Outside scheduling after `stop`: the scheduler's promise is for no such call.
- Timers or events that are left at shutdown: nothing is claimed about them.
- HttpRun.RunConcat: keeps no errno of a failed run.
- HttpMessages.ChunkedMessage: the other header lines have a name that means nothing to the parser and a value that is not empty or folded; a trailer has only such lines.
- `epoll_wait`, pipes, `tickle` and the clock are outside; what they answer is a parameter. A descriptor is closed only after cancelAll, as hook.cc does.
- RegistryRuns.StepKeepsSafe: has no step for delEvent, after which a registry is not sound (DeleteIsSoundIff).
- Timers.Drive: is for times and periods whose sums do not wrap, and a clock past its first hour where a call of listExpiredCb is late; RefreshWraps and LateInFirstHour show that it fails beyond them.
- Logging, configuration, servlets, HTTP client and server, TcpServer, addresses and file utilities: plumbing, or little that is both true and hard.
