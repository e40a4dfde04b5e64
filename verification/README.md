# Verification of the request parser and of the schedulers

Two parts of the system are modelled here, each by itself, and their properties proved.

**The HTTP request parser** (`httpserver.h`). `HttpTables` holds the two transition tables, `HttpStream` the
request buffer, `HttpParser` one call of `http_parse` as functions over the parser and stream structs, and
`HttpMachine` the class that does the same in place. `HttpReference` is an independent machine that reads one byte at a
time and keeps the text of each token in hand: it has no buffer, no jumps and no shifts, and it never sees where a
read ends. `HttpRefinement`, `HttpCalls` and `HttpSession` prove that `http_parse`, called over any sequence of reads,
hands out exactly what the reference machine does, that the driver loop terminates, and that texts already handed out
stay where they are. `HttpLimits` and `HttpSplits` say exactly when the tokens depend on where the reads fall.
`HttpGrammar`, `HttpRequests`, `HttpHeaders`, `HttpChunks`, `HttpLargeBody` and
`HttpLargeRequests` then relate the tokens to the grammars of sections 3 and 4.1 of RFC 7230: what is printed is
handed out again, and (`HttpAccepts`, `HttpChunkGrammar`) a head or a chunked body is accepted only if it is one that
can be printed, but for the first byte of a chunked body. `HttpAlphabet` says what letters and digits mean, by literal
words and alphabets, for all of them. `HttpMemory` is the server's memory estimate, and `HttpResponse` the buffer that
a response is written into.

**The schedulers and workers** over the `Task` and `Worker` tables. `Database` has the tables and the stored
procedures, each one atomic step. `WorkerProtocol` interleaves schedulers, dispatchers, executors and `endServing` in
any order. `Probing` is the number theory of triangular probing, `Schedulers` the scheduler that probes that way,
`LinearSchedulers` those that probe the partitions one after the other, `ScanPlacement` the scan benchmark's placement
and `Spark` the scheduler with a data location index and asynchronous completion.

The structs and objects that the sources update in place are classes whose methods are proved against functions of
the old state; the protocols are actions over a state, and the invariants are proved over every run of actions.

## How the source is read

* Where the C code has no defined or supported behaviour, `http_parse` as modelled answers `Outside` with a reason: a
  byte of the deciding Content-Length that is no digit, a length beyond `int64_t`, a jump beyond `int`, a remaining
  length that is negative as an `int`, and a byte that follows a finished chunked body in the same buffer. The
  methods in place then return without an answer. The reference machine adds two reasons: a body that is streamed,
  whose pieces are the reads, and more bytes before a body than the buffer can hold.
* The limit of 8192 bytes on a token is looked at only when a call has used up its input. The reference machine does
  not know it: `SplitInvarianceIff` says that it is the only way in which the reads matter.
* `body_left` is an `int` set from `int64_t`: the conversion is two's complement wrap-around (`HttpParser.Int32`).
* The row of `hs_token_start_states` for BR is one past its end; it is read as "no token". The overlapping `memcpy` of
  `hs_stream_shift` is read as a copy of ascending addresses.
* `hs_ctype` classes the comma as a token character, a method may not begin with a digit, a target may not begin
  with a colon or a semicolon, line ends are skipped after a header's colon, the first byte of a chunked body is not
  checked, and bytes from 128 up are refused: in these the code differs from RFC 7230, and the model follows the code.
* A text of a response that does not fit is printed again into the buffer grown for it, and the code adds up the
  results of both calls: `HttpResponse.ResponseLengthIff` says when the length that is sent is the length written.
* Header names are matched as prefixes, and after "content-length" with what is left over from
  "transfer-encoding"; `NameRecognised` states this exactly.
* `FinishWorkerTask`, `SelectWorker` and the others are serializable procedures; which row a query for one row picks,
  `rand()` and the interleaving of threads are left free. Task ids are unique because one `fetch_add` counter hands
  them out. `schedule` asserts that a worker was found; the model returns whether one was.

## Model

| member | source | states |
|---|---|---|
| HttpStream.HsStream.Next | src/libs/lib_worker/httpserver.h:760-765 | clears the consumed flag and yields the byte at the index, if one has been received |
| HttpStream.HsStream.DoConsume | src/libs/lib_worker/httpserver.h:767-773 | moves index and token on by one, at most once a byte |
| HttpStream.HsStream.DoJump | src/libs/lib_worker/httpserver.h:780-787 | moves on by the offset if that much has been received, and otherwise only marks the byte consumed |
| HttpStream.HsStream.DoJumpAll | src/libs/lib_worker/httpserver.h:789-796 | moves on over everything received and says by how much |
| HttpStream.HsStream.Emit | src/libs/lib_worker/httpserver.h:802-807 | hands the current token out and leaves none |
| HttpStream.CopyDown | src/libs/lib_worker/httpserver.h:819-824 | after the copy the bytes lie at the lower address and everything else is as before |
| HttpStream.HsStream.DoShift | src/libs/lib_worker/httpserver.h:817-828 | the bytes of the current token move down to the anchor; index and length follow |
| HttpStream.ShiftKeepsText | src/libs/lib_worker/httpserver.h:817-828 | a shift changes neither the text of the token in progress nor anything below the anchor |
| HttpMachine.RequestParser.MatchKeyByte | src/libs/lib_worker/httpserver.h:882-886 | the two word matches on one byte of a header name, with the byte left over from the first: the letter at that place of "transfer-encoding" or of "content-lengthing", in either casing, keeps the name a candidate |
| HttpMachine.RequestParser.MatchValueByte | src/libs/lib_worker/httpserver.h:887-895 | the letter at that place of "chunked", in either casing, keeps the coding a candidate; a decimal digit is appended to the length |
| HttpMachine.RequestParser.FinishHeaders | src/libs/lib_worker/httpserver.h:896-909 | which body follows the blank line, and the signal for the handler |
| HttpParser.EndHeaders | src/libs/lib_worker/httpserver.h:896-909 | no body, chunks, a small body or a streamed one, from the framing header and the room in the buffer |
| HttpParser.Int32Is | src/libs/lib_worker/httpserver.h:926 | the int that a remaining length is turned into differs from it by a multiple of 2^32 |
| HttpMachine.RequestParser.AddChunkDigit | src/libs/lib_worker/httpserver.h:910-922 | a digit of "0123456789abcdef", in either casing, is appended to the chunk size with the value of its place there |
| HttpMachine.RequestParser.ReadBody | src/libs/lib_worker/httpserver.h:923-940 | the body labels: the whole of what is left, or all that has been received; no answer where the jump has no defined target |
| HttpMachine.RequestParser.EnterInPlace | src/libs/lib_worker/httpserver.h:854-868 | what entering another state does to the parser |
| HttpMachine.RequestParser.BeginInPlace | src/libs/lib_worker/httpserver.h:851-857 | what entering another state does to the stream |
| HttpMachine.RequestParser.Switch | src/libs/lib_worker/httpserver.h:872-948 | the switch of the transition action, label by label, or no answer |
| HttpMachine.RequestParser.EmitMeta | src/libs/lib_worker/httpserver.h:951-964 | the pending empty chunk, or the end of the request and a fresh parser |
| HttpMachine.RequestParser.Iterate | src/libs/lib_worker/httpserver.h:970-981 | one turn of the parsing loop in place is one step of the model, for every byte and state |
| HttpMachine.RequestParser.Run | src/libs/lib_worker/httpserver.h:966-993 | http_parse in place computes the token, the parser and the stream of the function Parse, and has no answer exactly where that has none |
| HttpParser.StepKeepsInv | src/libs/lib_worker/httpserver.h:843-949 | a byte keeps the invariant: the state is one of ST..C2, the meta state is never M_ERR, the two go together as listed in Metas, and lengths, counters and token agree |
| HttpParser.ControlKeepsParser | src/libs/lib_worker/httpserver.h:851-909 | outside the bodies a byte leads to a listed pair of states; at HN the meta state was M_ANY, M_SML or M_CHK |
| HttpParser.LoopKeepsInv | src/libs/lib_worker/httpserver.h:970-981 | so does the loop, which ends with a token or with all input read |
| HttpCalls.ParseKeepsInv | src/libs/lib_worker/httpserver.h:966-993 | so does every call of http_parse that is not an error |
| HttpReference.RefStepSound | src/libs/lib_worker/httpserver.h:628-689 | the byte-at-a-time machine stays inside both tables too |
| HttpRefinement.BodyRun | src/libs/lib_worker/httpserver.h:923-940 | a body read byte by byte comes out as the one piece that the jumps produce |
| HttpRefinement.StepRel | src/libs/lib_worker/httpserver.h:970-981 | one turn of the loop does what the reference machine does on the bytes it consumes |
| HttpRefinement.ShiftRel | src/libs/lib_worker/httpserver.h:982 | the shift of a partial chunk is invisible to the reference machine |
| HttpRefinement.ParseRel | src/libs/lib_worker/httpserver.h:966-993 | one call hands out what the reference machine does on the bytes it consumes, up to tokens still pending |
| HttpCalls.CallsRel | src/libs/lib_worker/httpserver.h:966-993 | so does any series of calls with reads of any bytes before them |
| HttpCalls.AnyCut | src/libs/lib_worker/httpserver.h:966-993 | from a fresh parser, a session in which nothing is pending has handed out exactly the tokens of its bytes, with their texts and offsets; it stops only at their first error or where a read cuts a token beyond the limit |
| HttpCalls.ParseKeepsHead | src/libs/lib_worker/httpserver.h:817-828 | a call never touches the bytes below the anchor, so handed out heads stay where they are |
| HttpCalls.CallsKeepHeld | src/libs/lib_worker/httpserver.h:966-993 | at the end of any session every text handed out, chunks apart, still stands at its offset |
| HttpSession.StepShrinks | src/libs/lib_worker/httpserver.h:970-981 | each turn of the loop advances the index, or returns a token and lowers the rank |
| HttpSession.ParseShrinks | src/libs/lib_worker/httpserver.h:1119-1139 | a call that hands out a token uses up unread bytes or else the rank of the pending state; one that does not has read everything |
| HttpSession.ProcessAll | src/libs/lib_worker/httpserver.h:1119-1139 | the driver loop, with its test of the session's state, terminates with every token up to NONE, the first error, or the first callback that does not go on reading, as the function Drive |
| HttpSession.DriveStops | src/libs/lib_worker/httpserver.h:1119-1139 | with the k-th callback the first that stops reading, the loop ends exactly at the k-th BODY, BODY_STREAM or CHUNK_BODY, which is the last token handed out, if the bytes hold that many of them, and nowhere before the end otherwise |
| HttpSession.DriveNeverWaits | src/libs/lib_worker/httpserver.h:1119-1139 | with callbacks that all go on reading it hands out everything and never waits |
| HttpSession.DriveThenDrain | src/libs/lib_worker/httpserver.h:1119-1150 | a loop that a callback ended, picked up again from there, hands out exactly the tokens that one left running would have |
| HttpSession.DrivenAnyCut | src/libs/lib_worker/httpserver.h:1110-1150 | over any reads, and whatever the callbacks decide, what has been handed out is what the bytes looked at so far amount to |
| HttpSession.ServeAnyCut | src/libs/lib_worker/httpserver.h:1110-1140 | for callbacks that go on reading: over any reads with room in the buffer the driver hands out the tokens of the reference machine but for an empty chunk whose next byte is missing; it stops only at the first error or where a read cuts a token beyond the limit |
| HttpSplits.ServeExact | src/libs/lib_worker/httpserver.h:1110-1140 | for callbacks that go on reading and no token beyond the limit: exactly the tokens of the bytes, over any reads |
| HttpSplits.ServeSplitInvariance | src/libs/lib_worker/httpserver.h:966-993 | split invariance: without a token beyond the limit the same bytes in any two sequences of reads give the same tokens, up to and including the first error |
| HttpLimits.LongPiece | src/libs/lib_worker/httpserver.h:985-991 | a token beyond the limit stands in the bytes at its offset, and after any part of it the machine has that token in progress and has handed out the ones before |
| HttpLimits.LongRun | src/libs/lib_worker/httpserver.h:985-991 | a token that is too long already stays in progress, comes out in full, or fails |
| HttpSplits.LongTokensDepend | src/libs/lib_worker/httpserver.h:985-991 | at every method, target, version, key or value beyond the limit, wherever it stands: read at once it is handed out in full, and a read that ends more than 8192 bytes into it makes it the error |
| HttpSplits.SplitInvarianceIff | src/libs/lib_worker/httpserver.h:966-993 | the tokens of bytes that fit in the buffer, and on which the code is defined, are the same over all reads if and only if none of the tokens of the uncut bytes is beyond 8192 bytes |
| HttpRequests.RequestsSplitIff | src/libs/lib_worker/httpserver.h:966-993 | for any printed requests that fit in the buffer: if and only if no text of their heads is beyond 8192 bytes |
| HttpGrammar.KeyVerdict | src/libs/lib_worker/httpserver.h:882-886 | each byte of a name keeps the meta state equal to the verdict on the prefix read so far |
| HttpGrammar.ValueVerdict | src/libs/lib_worker/httpserver.h:887-895 | each byte of a value keeps the length equal to its decimal value, or the verdict on "chunked" |
| HttpAlphabet.LowerSame | src/libs/lib_worker/httpserver.h:837-841 | two bytes are the same to the parser exactly when they are equal or one is a capital letter and the other its small one |
| HttpAlphabet.KeyLetters | src/libs/lib_worker/httpserver.h:837-886 | at each place the parser compares with the letters of "transfer-encoding" and "content-lengthing" |
| HttpAlphabet.ValueLetters | src/libs/lib_worker/httpserver.h:887-890 | and with those of "chunked" |
| HttpAlphabet.HexPlace | src/libs/lib_worker/httpserver.h:910-922 | a chunk size digit has the value of its place in "0123456789abcdef", in either casing |
| HttpAlphabet.HexOnly | src/libs/lib_worker/httpserver.h:910-922 | and any byte that is none of them has none |
| HttpGrammar.DecimalNumeral | src/libs/lib_worker/httpserver.h:891-894 | the length read from a value is the number that it writes in the digits "0123456789", by their places |
| HttpGrammar.HeaderRun | src/libs/lib_worker/httpserver.h:858-895 | a printed header line hands out its name and its value, and moves the framing on as FrameBy says |
| HttpGrammar.HeadRun | src/libs/lib_worker/httpserver.h:843-909 | parse of print: a printed request line and header list hands out METHOD TARGET VERSION (KEY VAL)+ with exactly the printed texts and offsets, then the signal of its framing |
| HttpAccepts.HeadGrammar | src/libs/lib_worker/httpserver.h:628-656 | the machine comes to the end of a head exactly on what a well-formed head prints, both ways, with that head's tokens |
| HttpAccepts.ServedHeadGrammar | src/libs/lib_worker/httpserver.h:966-993 | the same for a session, however its bytes are cut, for heads whose texts keep to the limit; no other bytes bring it there |
| HttpRequests.RequestRun | src/libs/lib_worker/httpserver.h:843-949 | a request without a body, or with a small one, reads back from anywhere in the buffer; the body token starts right after the blank line |
| HttpRequests.RequestServed | src/libs/lib_worker/httpserver.h:966-993 | and so it does however it is cut into reads: its body is as long as the deciding header says |
| HttpRequests.RequestsServed | src/libs/lib_worker/httpserver.h:958-961 | several requests in one buffer come out one after the other, for callbacks that go on reading |
| HttpRequests.NameRecognised | src/libs/lib_worker/httpserver.h:837-886 | after a name and its colon the meta state is M_CLV, M_MCK or M_WFK exactly by which word the name begins: each byte is the letter of "content-lengthing" or "transfer-encoding" at its place or the capital of it; both words in any casing are recognised, and no name with another first letter |
| HttpRequests.HeaderRecognised | src/libs/lib_worker/httpserver.h:858-895 | after a whole header line chunks are announced exactly if the name begins "transfer-encoding" and the value begins "chunked", letter by letter in any casing, and a length exactly if the name begins "content-lengthing"; it is the number that the digits of the value write |
| HttpRequests.FirstDecides | src/libs/lib_worker/httpserver.h:657-712 | of all headers the first that announces a length or chunks decides: its number is the length, or there are chunks; without one there is no body |
| HttpRequests.NamesNotInFull | src/libs/lib_worker/httpserver.h:837-886 | after "C:" and after "content-lengthing:" the meta state is M_CLV, as after Content-Length |
| HttpRequests.OverfullStuck | src/libs/lib_worker/httpserver.h:813-815 | a body that the size test lets through by one or two bytes too many never completes: the buffer fills up and no read is possible |
| HttpHeaders.CompareNames | src/libs/lib_worker/httpserver.h:1264-1271 | true exactly when at each index the bytes are equal, or one is a capital letter and the other its small one |
| HttpHeaders.FindHeader | src/libs/lib_worker/httpserver.h:1326-1341 | the token after the first key with that name, length and letters but for their casing, always in bounds, or nothing |
| HttpHeaders.SessionLookup | src/libs/lib_worker/httpserver.h:1326-1341 | in any session that has handed out a head, a lookup finds the value of the first header with that name, whatever was shifted since |
| HttpHeaders.RequestLookup | src/libs/lib_worker/httpserver.h:1326-1341 | so it does for every request without a body or with a small one |
| HttpHeaders.ChunkedLookup | src/libs/lib_worker/httpserver.h:1326-1341 | and for every chunked request |
| HttpChunks.ChunkRun | src/libs/lib_worker/httpserver.h:910-943 | one chunk of section 4.1 of RFC 7230, its size a numeral in "0123456789abcdef" of any casing with any leading zeros, and with any extension, is one piece with its data |
| HttpChunks.SizeNumeral | src/libs/lib_worker/httpserver.h:910-922 | a text is a numeral for n in "0123456789abcdef", by the places of its digits, in any casing and with any leading zeros, exactly when it is read as n |
| HttpChunks.ChunksRun | src/libs/lib_worker/httpserver.h:910-949 | a chunked body is its chunks in order, one empty chunk and the end of the request |
| HttpChunkGrammar.LaxGrammar | src/libs/lib_worker/httpserver.h:628-689 | after the head of a chunked request exactly those bodies are accepted that are a list of chunks and a last chunk of section 4.1 of RFC 7230 but for their first byte, which may be anything; their data come out |
| HttpChunkGrammar.LaxIs | src/libs/lib_worker/httpserver.h:910-922 | a chunk with any first byte is a proper one, or has the numeral of its size behind a byte that is no hex digit, or no numeral and no data |
| HttpChunkGrammar.ChunkGrammar | src/libs/lib_worker/httpserver.h:628-689 | a chunked body that begins with a size digit is complete exactly when it is a list of chunks and a last chunk of section 4.1 of RFC 7230, both ways, with their data as tokens |
| HttpChunkGrammar.AcceptedGrammatical | src/libs/lib_worker/httpserver.h:973-975 | an accepted chunked body is grammatical if and only if its first byte is a hex digit |
| HttpChunkGrammar.ServedChunkGrammar | src/libs/lib_worker/httpserver.h:966-993 | over any reads a session ends a chunked request on exactly those bodies, with the data of their chunks |
| HttpChunks.FirstByteUnchecked | src/libs/lib_worker/httpserver.h:973-975 | the first byte of a chunked body is not checked: any other byte in place of the size digits is a chunk without data |
| HttpChunks.ChunkedServed | src/libs/lib_worker/httpserver.h:966-993 | and so it is however the request is cut, although partial chunks are shifted between the reads |
| HttpAlphabet.HexTextReads | src/libs/lib_worker/httpserver.h:1542 | a number written in base 16, in capitals as by the response or in small letters, is a numeral for that number |
| HttpChunks.FramingRoundTrip | src/libs/lib_worker/httpserver.h:1542-1544 | what the chunk framing writes for any non-empty texts, fed in any reads to a driver at HN with M_ZER, comes out as the same texts |
| HttpLargeBody.StreamPasses | src/libs/lib_worker/httpserver.h:923-940 | one call on a streamed body passes on all unread bytes, at most what the code believes is left |
| HttpLargeBody.PiecesConserve | src/libs/lib_worker/httpserver.h:923-940 | one piece to a read conserves the bytes and leaves no piece empty |
| HttpLargeBody.StreamedServed | src/libs/lib_worker/httpserver.h:923-964 | over any reads the pieces are the bytes read and body_consumed stays below content_length until the last; then come exactly one empty chunk and the end |
| HttpLargeBody.StreamedExactly | src/libs/lib_worker/httpserver.h:926-932 | a streamed body comes out whole if and only if its place in the buffer plus what is left of it fits in an int |
| HttpLargeRequests.FourGigabytes | src/libs/lib_worker/httpserver.h:926-932 | a request whose length is a multiple of 2^32 is declared complete, over any reads, before a byte of its body is looked at |
| HttpLargeRequests.LargeServed | src/libs/lib_worker/httpserver.h:896-964 | a whole large request, cut anywhere, comes out as head, signal, body, one empty chunk and end if and only if head and body are at most INT_MAX bytes long |
| HttpMemory.Server.Accept | src/libs/lib_worker/httpserver.h:1174-1191 | a new session holds no buffer |
| HttpMemory.Server.FreeBuffer | src/libs/lib_worker/httpserver.h:1038-1044 | the estimate falls by what the session held, and it holds nothing |
| HttpMemory.Server.Begin | src/libs/lib_worker/httpserver.h:1046-1055 | initialising a session loses no buffer, since INIT implies there is none |
| HttpMemory.Server.Fill | src/libs/lib_worker/httpserver.h:733-756 | the read loop doubles the buffer when full and accounts for it: a buffer short of 8 MB ends as the first doubling with room for more and holds everything there was to read, one with 8 MB takes what fits, and one that reaches them is left with 4 MB read; the end of the stream is seen exactly when the peer has closed and everything was read, or no room is left |
| HttpMemory.Server.Read | src/libs/lib_worker/httpserver.h:724-758 | with bytes unread nothing happens; otherwise a missing buffer is made with 1024 bytes, it is filled as above, and the session is to end exactly when the loop saw the end of the stream |
| HttpMemory.DoublingLimit | src/libs/lib_worker/httpserver.h:748-751 | a buffer of 1024 bytes doubled again and again comes to 8 MB exactly: it never has to be cut down |
| HttpMemory.GrowBuffer.Print | src/libs/lib_worker/httpserver.h:1448-1464 | grwprintf doubles the buffer until the text fits, accounts for that, and counts the text once, or twice if the buffer grew |
| HttpMemory.GrowBuffer.Copy | src/libs/lib_worker/httpserver.h:1436-1446 | grwmemcpy makes exactly the room it needs, accounts for that, and counts the bytes once |
| HttpMemory.Server.Compose | src/libs/lib_worker/httpserver.h:1427-1464 | a response buffer starts with 1024 bytes, has the capacity and the size that its calls lead to, and is accounted for |
| HttpResponse.FirstDoubling | src/libs/lib_worker/httpserver.h:1455 | the capacity after doubling is the first doubling with room |
| HttpResponse.CountedIff | src/libs/lib_worker/httpserver.h:1436-1464 | the counted size is never less than what was written; it is the same if and only if every text ends within the first 1024 bytes, and then it lies within the capacity |
| HttpResponse.SizeWithinIff | src/libs/lib_worker/httpserver.h:1448-1464 | after a text that grew the buffer the counted size lies within the capacity if and only if the text fits twice there |
| HttpResponse.CopyWithin | src/libs/lib_worker/httpserver.h:1436-1446 | after a copy the counted size lies within the capacity |
| HttpResponse.CountedTwice | src/libs/lib_worker/httpserver.h:1448-1464 | a text of 3000 bytes is counted as 6000 in a buffer of 4096 |
| HttpResponse.ResponseLengthIff | src/libs/lib_worker/httpserver.h:1466-1556 | the length sent is the length written if and only if the head of a whole response, or all of a chunk with its framing, takes at most 1024 bytes |
| HttpResponse.ChunkSent | src/libs/lib_worker/httpserver.h:1529-1546 | a later chunk that takes more than 1024 bytes with its framing is sent with two bytes more than were written |
| HttpMemory.Server.Write | src/libs/lib_worker/httpserver.h:1072-1099 | a partial write waits, a chunk or a kept-alive response gives its buffer back, and otherwise the session is to end |
| HttpMemory.Server.Respond | src/libs/lib_worker/httpserver.h:1502-1556 | the response buffer takes the place of the request buffer in the estimate; its length and capacity are those of the calls that write it, and a chunk says that more are to come |
| HttpMemory.Server.End | src/libs/lib_worker/httpserver.h:1057-1064 | an ended session takes its buffer out of the estimate |
| HttpMemory.SumPut | src/libs/lib_worker/httpserver.h:1038-1044 | the sum over the sessions changes by exactly what one of them gained or lost |
| HttpMemory.Server.NothingLeaks | src/libs/lib_worker/httpserver.h:724-758 | the estimate is never negative, at least as large as each buffer, and zero when no session is left |
| Database.Db.SelectWorker | sql/SelectWorker.java:15-27 | takes one slot of some worker of the partition, or says that all are exhausted and changes nothing |
| Database.Db.SelectSinglePartitionedTaskWorker | sql/SelectSinglePartitionedTaskWorker.java:22-44 | takes one slot and inserts one pending row for that worker, or changes nothing |
| Database.Db.SelectOrderedWorker | sql/SelectOrderedWorker.java:19-32 | the same for a worker with the most free slots in the partition |
| Database.Db.SelectPendingTasks | sql/WorkerSelectTask.java:14-16 | distinct pending rows of the worker, and all of them unless the limit cuts them off |
| Database.Db.WorkerSelectTask | sql/WorkerSelectTask.java:22-43 | the selected rows become running |
| Database.Claimed | sql/WorkerSelectTask.java:34-39 | exactly the selected rows change from pending to running, one update at a time |
| Database.Db.WorkerUpdateTask | sql/WorkerUpdateTask.java:25-34 | sets the state of the row, and gives one slot back when that is COMPLETE |
| Database.Db.ScanTaskWorker | sql/ScanPartitionedTaskWorker.java:19-31 | a worker with the greatest number of rows in the partition, or none if it has none |
| Database.TotalMoves | sql/SelectWorker.java:22-26 | giving or taking a slot moves the partition's and the overall sum of free slots by one |
| WorkerProtocol.FetchSound | src/libs/lib_worker/MockPollWorker.cc:71-87 | fetching puts every fetched row into the dispatcher's hand exactly once |
| WorkerProtocol.PopSound | src/libs/lib_worker/MockPollWorker.cc:121-131 | popping moves the first queued entry to one executor and keeps the worker sound |
| WorkerProtocol.FinishSound | src/libs/lib_worker/MockPollWorker.cc:138-154 | finishing completes the row once and gives the slot back |
| WorkerProtocol.StepSound | src/libs/lib_worker/MockPollWorker.cc:31-159 | every step of every thread keeps every worker sound |
| WorkerProtocol.RunSound | src/libs/lib_worker/MockPollWorker.cc:60-159 | over every interleaving each row is in exactly one place, and free slots plus unfinished rows equal the initial capacity |
| WorkerProtocol.FirstInFirstOut | src/libs/lib_worker/MockPollWorker.cc:83-131 | over every interleaving what the executors popped, the queue and the rest of the batch are in this order the tasks fetched, in the order in which the database gave them; a single executor finishes them in that order |
| WorkerProtocol.NeverOverbooked | src/libs/lib_worker/MockPollWorker.cc:60-159 | capacity stays between zero and its initial value, and fetched, queued and held entries never exceed it |
| WorkerProtocol.ShutdownComplete | src/libs/lib_worker/MockPollWorker.cc:31-58 | when endServing has returned, everything pushed was finished exactly once and is COMPLETE, and the two counts agree |
| WorkerProtocol.PollWorker.FetchTasks | src/libs/lib_worker/MockPollWorker.cc:71-87 | the dispatcher's query in place is the Fetch action |
| WorkerProtocol.PollWorker.PushTask | src/libs/lib_worker/MockPollWorker.cc:85-94 | the push in place is the Push action |
| WorkerProtocol.PollWorker.Wake | src/libs/lib_worker/MockPollWorker.cc:121-131 | a woken executor takes the front of the queue, leaves, or goes on waiting |
| WorkerProtocol.PollWorker.FinishTask | src/libs/lib_worker/MockPollWorker.cc:138-154 | the report in place is the Finish action |
| WorkerProtocol.PollWorker.EndServing | src/libs/lib_worker/MockPollWorker.cc:31-58 | endServing goes from wait to wait, and moves on exactly when its wait is over |
| Probing.SweepInjective | src/libs/lib_scheduler/SinglePartitionedFIFOTaskScheduler.cc:78-102 | with 2^m partitions no sweep probes one twice |
| Probing.SweepVisits | src/libs/lib_scheduler/SinglePartitionedFIFOTaskScheduler.cc:78-102 | and every sweep probes every one |
| Probing.Missed | src/libs/lib_scheduler/SinglePartitionedFIFOTaskScheduler.cc:76-108 | with any other number some partition is never probed, from any start, in any number of sweeps |
| Probing.ProbingCompleteIff | src/libs/lib_scheduler/SinglePartitionedFIFOTaskScheduler.cc:76-108 | the probing loop reaches every partition from every start if and only if their number is a power of two |
| Schedulers.SinglePartitionedFIFOTaskScheduler.Setup | src/libs/lib_scheduler/SinglePartitionedFIFOTaskScheduler.cc:114-128 | worker i lies in partition i mod P with the common capacity, and no rows are left from before |
| Schedulers.SinglePartitionedFIFOTaskScheduler.SelectTaskWorker | src/libs/lib_scheduler/SinglePartitionedFIFOTaskScheduler.cc:67-112 | succeeds at the first probe of a partition with a free slot, adding one row and taking one slot, and otherwise leaves both tables unchanged |
| Schedulers.SinglePartitionedFIFOTaskScheduler.Schedule | src/libs/lib_scheduler/SinglePartitionedFIFOTaskScheduler.cc:137-142 | each call uses an id of its own; it takes one slot and adds that row at the probe it succeeded at, or changes nothing |
| Schedulers.FindsIfAny | src/libs/lib_scheduler/SinglePartitionedFIFOTaskScheduler.cc:67-112 | with a power of two of active partitions a free slot is found, within one sweep, if and only if there is one |
| Schedulers.MissesSome | src/libs/lib_scheduler/SinglePartitionedFIFOTaskScheduler.cc:67-112 | with any other number, and for every start, the setup and calls of schedule lead to tables with a free slot that a call from there misses |
| Schedulers.FindsAlwaysIff | src/libs/lib_scheduler/SinglePartitionedFIFOTaskScheduler.cc:67-142 | on all tables that the setup and calls of schedule lead to, a call finds a free slot whenever there is one, if and only if the number of active partitions is a power of two |
| Schedulers.RunSpends | src/libs/lib_scheduler/SinglePartitionedFIFOTaskScheduler.cc:67-142 | with a power of two a run of calls succeeds exactly as often as there are free slots, and fails from then on |
| Schedulers.ExactlyCapacity | src/libs/lib_scheduler/SinglePartitionedFIFOTaskScheduler.cc:114-142 | from the setup exactly the first W * capacity calls succeed, whatever partitions they start from and whatever workers the database picks |
| Schedulers.PlacementActive | src/libs/lib_scheduler/PartitionedFIFOScheduler.cc:37-42 | after setup every worker lies in a partition below min(P, W) |
| LinearSchedulers.LinearOnce | src/libs/lib_scheduler/PartitionedFIFOScheduler.cc:52-55 | linear probing visits no partition twice |
| LinearSchedulers.LinearRound | src/libs/lib_scheduler/PartitionedFIFOScheduler.cc:52-55 | the probes go up by one from the offset, with partition 0 after the last |
| LinearSchedulers.PartitionedFIFOScheduler.Setup | src/libs/lib_scheduler/PartitionedFIFOScheduler.cc:100-109 | worker i lies in partition i mod P with the common capacity; the Task table is left as it was |
| LinearSchedulers.PartitionedFIFOScheduler.SelectWorker | src/libs/lib_scheduler/PartitionedFIFOScheduler.cc:49-71 | -1 if and only if no worker has a free slot; otherwise exactly one slot less, of a worker in the first partition with a free slot, going round from the offset |
| LinearSchedulers.PartitionedLocalFIFOScheduler.Setup | src/libs/lib_scheduler/PartitionedLocalFIFOScheduler.cc:113-123 | the same, with both tables cleared |
| LinearSchedulers.PartitionedLocalFIFOScheduler.SelectOrdered | src/libs/lib_scheduler/PartitionedLocalFIFOScheduler.cc:61-84 | -1 if and only if no worker has a free slot, and otherwise one ordered selection in the first partition with a free slot, going round from the offset |
| LinearSchedulers.OrderedKeepsBalance | sql/SelectOrderedWorker.java:19-32 | an ordered selection keeps workers of a partition within one slot of each other |
| LinearSchedulers.RunBalanced | sql/SelectOrderedWorker.java:19-32 | so does every run of them, and the slots a partition has given away are the rows inserted there |
| LinearSchedulers.SetupBalanced | src/libs/lib_scheduler/PartitionedLocalFIFOScheduler.cc:113-123 | in particular every run from the uniform setup |
| ScanPlacement.PartitionedScanTask.Setup | src/libs/lib_scheduler/PartitionedScanTask.cc:101-111 | row i belongs to worker i mod W, in partition (i mod W) mod P |
| ScanPlacement.ShareIs | src/libs/lib_scheduler/PartitionedScanTask.cc:38-40 | worker w owns T/W rows, and one more if w is below T mod W |
| ScanPlacement.OnePartition | src/libs/lib_scheduler/PartitionedScanTask.cc:38-40 | all of them in the one partition w mod P |
| ScanPlacement.FirstProbeFinds | src/libs/lib_scheduler/PartitionedScanTask.cc:49-82 | every active partition is non-empty, and the worker found there owns as many rows as worker p, the most in partition p |
| ScanPlacement.PartitionedScanTask.SelectMostTaskWorker | src/libs/lib_scheduler/PartitionedScanTask.cc:49-99 | if the first partition has rows the first probe answers with its busiest worker; none is reported only if there are no rows at all |
| Spark.SparkDb.InsertSparkWorker | sql/InsertSparkWorker.java:15-21 | one worker row and its entry in the index |
| Spark.SparkDb.SelectDataShardPartition | sql/SelectDataShardPartition.java:11-14 | the partitions that the index lists for the shard |
| Spark.SparkDb.SelectSparkWorker | sql/SelectSparkWorker.java:15-27 | one slot less for a worker of the partition that holds the shard, on all its rows, or nothing if no such row has a free slot |
| Spark.SparkDb.FinishWorkerTask | sql/FinishWorkerTask.java:22-38 | reads a capacity, writes one more to all rows of the worker and completes the row of that id; -1 and no change for an unknown worker |
| Spark.TakeSound | src/libs/lib_scheduler/SparkScheduler.cc:124-219 | every step of every thread of every scheduler keeps the invariant |
| Spark.SparkSafety | src/libs/lib_scheduler/SparkScheduler.cc:124-219 | over every run a returned call was answered at a worker that holds the data its caller asked for, the index is exactly the shards and partitions of the worker rows, free plus outstanding slots equal the initial capacity, and no task is called again once answered, even if the answer comes before the task has left the queue |
| Spark.SparkKeeps | src/libs/lib_scheduler/SparkScheduler.cc:29-219 | over every run the k-th call of schedule is task k with the data it asked for, and it is queued, has a slot or has been answered; the rows are those inserted, each shard in its worker's partition, and the initial capacities those inserted with them |
| Spark.LookUpExact | src/libs/lib_scheduler/SparkScheduler.cc:43-57 | a look-up finds exactly the partitions in which some worker holds the data of the task in front |
| Spark.SparkScheduler.SubmitTask | src/libs/lib_scheduler/SparkScheduler.cc:204-213 | schedule queues a new id of its own, with the data it was called with |
| Spark.SparkScheduler.FindPartitions | src/libs/lib_scheduler/SparkScheduler.cc:43-57 | the look-up in place is the LookUp action |
| Spark.SparkScheduler.Poll | src/libs/lib_scheduler/SparkScheduler.cc:59-75 | one round of polling reserves a slot for the front of the queue, or changes nothing |
| Spark.SparkScheduler.SendTask | src/libs/lib_scheduler/SparkScheduler.cc:172-176 | the call is sent while its task is still first in the queue |
| Spark.SparkScheduler.PopTask | src/libs/lib_scheduler/SparkScheduler.cc:177 | the front of the queue is popped, whatever has become of its call meanwhile |
| Spark.SparkScheduler.AnnounceTask | src/libs/lib_scheduler/SparkScheduler.cc:143-149 | the id goes into the completion set before the slot is given back |
| Spark.SparkScheduler.GiveBackSlot | src/libs/lib_scheduler/SparkScheduler.cc:150-165 | the slot is given back in the worker's own partition |
| Spark.SparkScheduler.AwaitTask | src/libs/lib_scheduler/SparkScheduler.cc:214-218 | schedule returns only if its own id is in the completion set |

## Left out

- Sockets, epoll and kqueue, timers, the date text and failing allocations: a read is an arbitrary byte sequence up to the free room, a timer an arbitrary end of a session.
- HttpSession.ProcessAll: what a callback does to the parser or the buffer, other than to read on or not, is not modelled; a handler that reads on from inside its callback is one that resumes.
- HttpSession.ServeAnyCut: for callbacks that go on reading, as are the other results about `Serve`; `DrivenAnyCut` covers all callbacks.
- HttpMemory.Server.Compose: models sizes and capacities of the response text, not the text.
- HttpMemory.Server.Respond: keep-alive detection and the lengths of the texts are inputs, and the sessions are rows of a map rather than separate objects.
- HttpHeaders.FindHeader: works on the token array and the buffer as values; growth of the token array is not modelled.
- `http_request_free_buffer` called in the middle of a request, chunk trailers, empty header values and bytes after a chunked request: the parser does not support them.
- The second line end written by `http_respond_chunk_end`: the framing proved ends with a single empty line.
- `http_request_iterate_headers`, keep-alive detection and response headers: they add only easy members.
- The columns DataShards and Url in `Database`, and the client connections, mock sleeps and failure messages of the schedulers.
- Failed procedure calls: every procedure is one atomic step that succeeds.
- Liveness of the condition variables and of the polling loop in `selectWorker`: only safety is proved, and a look-up that finds no partition is not followed further.
- WorkerProtocol.PollWorker.FetchTasks: the loops of the threads are their single steps, taken in any order.
- `finishTask` and `assignTaskToWorker` of the two FIFO schedulers, `asyncSchedule`, `PartitionedFIFOTaskScheduler` and `PushFIFOScheduler`.
- The unsigned wrap-around of `taskindex` after 2^32 calls.
