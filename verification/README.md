# Verification of webserv, the Ford-Johnson sort and three smaller programs

This project models the parts of the repository that hold state and branch the
most, and proves what they keep. `dafny verify dfyconfig.toml` checks the whole of it.

**The HTTP server, webserv.**

- `Text.dfy` has the string functions and the C library calls everything rests
  on, and `TextLaws.dfy` what they do on every input; `HttpParser.dfy` gives the incremental request parser as a step function
  and its run; `HttpRequest.dfy` is the object whose loops erase the buffer in
  place, proved to do the same.
- `HttpSplit.dfy` and `HttpCrlf.dfy` prove that the cutting of a stream into
  `feed` calls does not matter, and under which conditions; `HttpEncode.dfy` and
  `HttpPipeline.dfy` that well-formed requests are read back, singly and
  pipelined, under any delivery schedule; `HttpReadings.dfy` what a request means,
  read off its text, and which lines are refused; `HttpInvariants.dfy` what every parser
  state keeps; `HttpStreams.dfy` has whole streams on which promises fail.
- `Routing.dfy` has the choice of server, location and limit.
  `ServerModel.dfy` is the event loop as a step system over the descriptor
  tables and the connections; `Server.dfy` has the client and server objects,
  whose handlers are proved to do these steps in place. `ServerTables.dfy`
  proves table consistency over all runs, `ServerEarlyEof.dfy` gives the run that
  breaks it, and `ServerLinks.dfy` what is kept even then; `ServerOrder.dfy` and
  `ServerAnswers.dfy` prove response order, `ServerProgress.dfy` and
  `ServerConversations.dfy` that clients are served to the end and which connections
  are kept, `ServerPipes.dfy` what CGI programs are given, and `ServerLimits.dfy` that
  the two-stage body limit acts as one.
- `CgiOutput.dfy` parses what CGI programs print; `Address.dfy` reads and writes
  IPv4 addresses; `ConfigTokens.dfy`, `ConfigParser.dfy`, `ConfigDirectives.dfy`,
  `ConfigText.dfy` and `ConfigCanonical.dfy` read the configuration language back.

**Other programs.** `FordJohnson.dfy` is the merge-insertion sort, `Rpn.dfy` the
calculator, `Life.dfy` the Game of Life.

Objects whose methods update fields are classes; each method's postcondition
ties the new state to a function of the old one, and the lemmas are about that
function. A string is a sequence of bytes. `size_t`, `long` and `int` conversions
are written out where the code depends on them. What the kernel contributes
arrives with each event: new descriptors, bytes received, counts written, expired
clients. Routing, error pages and the text made from CGI output are arbitrary
functions, fixed for a run, of the request and of the moment, which stands for
files, sessions, the clock and how programs ended; an error page may also depend on
the keep-alive flag the previous request left.

## Where the code and its documentation differ

The model follows the code.

- The sort is announced as a sort. It sorts its input only under the condition
  `FordJohnson.Sortable`, because the larger elements are sorted without their
  partners and the first pending element goes in front unchecked
  (cpp_5-9/cpp9/ex02/PmergeMe.cpp:155-160).
- Incremental parsing is meant not to depend on packet boundaries. It does for
  lines that end in a bare LF before the next CRLF, since CRLF is searched for
  over the whole buffer first (webserv/src/HttpRequest.cpp:69-73).
- Feeding is meant to return. It loops for ever on a chunk size read as a negative
  number that wraps the frame to nothing (webserv/src/HttpRequest.cpp:235-253);
  `HttpStreams.SpinsExactly` says when, and `HttpStreams.SpinningStream` gives
  streams.
- The body limit is meant to bound the body. A chunk size read as negative passes
  the check through `size_t` arithmetic (webserv/src/HttpRequest.cpp:235-252);
  `HttpInvariants.RunKeepsLimit` says exactly when the bound is kept, and
  `HttpStreams.FloodingStream` gives streams that exceed it.
- `parseIPv4` is documented to return the wildcard for malformed text; parts are
  accumulated modulo 2^64 (webserv/src/Server.cpp:42). `Address.PromiseKeptIff`
  says exactly when the promise is kept.
- `readCgi` closes the write pipe of a CGI program but leaves its table entry
  (webserv/src/Server.cpp:376-379); the table theorems isolate this transition,
  and `ServerEarlyEof.EarlyEofHappens` gives a run in which it does damage.

## Model

| member | source | states |
|---|---|---|
| HttpSplit.SplitInvariance | webserv/src/HttpRequest.cpp:63-140 | Feeding a stream in any number of pieces, cut anywhere (inside a CRLF, a size line, chunk data, the trailer), ends in exactly the state, fields and buffer of one feed of the whole, error states 400, 501 and 413 included, if every line taken on the way ends at the first LF in sight and no chunk with a negative size is taken |
| HttpCrlf.CrlfSplitInvariance | webserv/src/HttpRequest.cpp:63-255 | The same with a condition on the bytes alone: header lines up to the first blank one end in CRLF and, if the method and the header lines announce a chunked body, so do its size and trailer lines, with no negative size. The request need not be well formed |
| HttpSplit.LineIsCutInvariant | webserv/src/HttpRequest.cpp:69-73 | For one line search the condition is exact: the search finds the same line, or none, however early the buffer is looked at, if and only if the line it finds ends at the first LF |
| HttpSplit.LineStepInvariantIff | webserv/src/HttpRequest.cpp:67-122 | At the request line, a header line or in the trailer: the whole step, with the rest of the bytes appended, is the same however early it is taken, if and only if the line ends at the first LF |
| HttpSplit.ChunkStepInvariantIff | webserv/src/HttpRequest.cpp:222-253 | At a size line that ends at the first LF: the step is the same however early it is taken, if and only if it takes no chunk of negative size that it could have taken with one byte less |
| HttpStreams.SplitVarianceFromStart | webserv/src/HttpRequest.cpp:63-255 | Behind the head of any chunked request, from a parser that has seen nothing: the bytes LF CR LF complete the request when they are cut behind the LF and leave it waiting when they come whole, so some condition is needed |
| HttpSplit.RunAppend | webserv/src/HttpRequest.cpp:67-138 | Running on a first part and then, with the rest appended, on what it left is running on the whole; alignment of the whole passes to both parts |
| HttpSplit.AlignedNeverSpins | webserv/src/HttpRequest.cpp:67-138 | On a stream that meets the condition the loops of feed always come to an end |
| HttpParser.Run | webserv/src/HttpRequest.cpp:63-140 | Running ends by a measure on buffer, state and body room; what is left is a state on which no further step has an effect, with the limit unchanged and the buffer no longer. Where the code itself loops for ever, this is the state it loops in |
| HttpStreams.SpinsExactly | webserv/src/HttpRequest.cpp:222-253 | Within a chunked body, for any bytes at hand: the code loops for ever if and only if they are a single line, ended by CRLF or a bare LF, whose size is read as minus its length and twice its line end, and the body length plus that size, in size_t, is within the limit |
| HttpStreams.SpinsAtLf | webserv/src/HttpRequest.cpp:222-253 | For a line of any text ended by a bare LF, alone at hand, that size is minus its length and two |
| HttpStreams.SpinsAtCrlf | webserv/src/HttpRequest.cpp:222-253 | For one ended by CRLF, with no LF in it, minus its length and four |
| HttpStreams.SpinningStream | webserv/src/HttpRequest.cpp:63-255 | Whole deliveries, from a parser that has seen nothing, on which feed does not return: the head of any chunked request, a chunk of six bytes, and a size line of minus six |
| HttpStreams.FeedReturns | webserv/src/HttpRequest.cpp:63-255 | Feeding ends whenever the buffer and the bytes fed do not end in a line with a minus sign in it, whatever the line ends are |
| HttpParser.StopsExactly | webserv/src/HttpRequest.cpp:67-138 | Parsing stops if and only if the request is complete or failed, or the bytes of the next line, body or chunk are not all there, or the one case is met in which the code loops for ever |
| HttpParser.TakeProgress | webserv/src/HttpRequest.cpp:190-255 | A size line whose frame has arrived brings the parser strictly forward, except for a negative size that wraps the frame length to zero with no byte behind the line |
| HttpParser.DoneStaysDone | webserv/src/HttpRequest.cpp:67-67 | COMPLETE and ERROR are absorbing: further steps and runs change nothing |
| HttpInvariants.FlagsInEveryState | webserv/src/HttpRequest.cpp:14-255 | After any sequence of feed and reset calls, with any limits, the trailer flag is up only in a chunked body, and the error code is nonzero (then 400, 413 or 501) exactly in the error state |
| HttpInvariants.StepKeepsLimitIff | webserv/src/HttpRequest.cpp:235-253 | A step keeps the body and the announced length within the limit if and only if it does not take a negative chunk size with more bytes behind its line than the limit leaves room for |
| HttpInvariants.RunKeepsLimit | webserv/src/HttpRequest.cpp:97-253 | A run, over any bytes and any line ends, ends with a body within the limit if and only if none of its steps takes such a chunk |
| HttpInvariants.AlignedIsFloodFree | webserv/src/HttpRequest.cpp:235-253 | In particular if it takes no negative chunk size |
| HttpStreams.FloodingStream | webserv/src/HttpRequest.cpp:63-255 | Whole deliveries that leave a body over the limit: the head of any chunked request, a chunk of one byte, a size line of minus one and as many bytes as the limit |
| HttpStreams.StreamsExist | webserv/src/HttpRequest.cpp:63-255 | Concrete deliveries to a fresh parser with a limit of six: one on which feed never returns and one that leaves the body over the limit |
| HttpPipeline.Conservation | webserv/src/HttpRequest.cpp:63-140 | After any sequence of feed and reset calls, with any limits and any bytes, the buffer is the tail of all bytes fed: bytes are consumed from the front only, none is lost, doubled or moved |
| HttpObject.HttpRequest.Feed | webserv/src/HttpRequest.cpp:63-140 | For every state and all bytes: the in-place loop over the buffer ends in the object state the run function gives for the old state and the new bytes; false is returned only after an error; and the outcome that the code loops for ever is reported exactly in the looping case |
| HttpObject.HttpRequest.ParseChunked | webserv/src/HttpRequest.cpp:190-255 | The nested loops over size lines and trailer lines leave the outcome of the run unchanged, return true only with the request complete, false only where no further step is possible, and report the looping case exactly |
| HttpObject.HttpRequest.ReadChunk | webserv/src/HttpRequest.cpp:222-253 | One round at a size line: it stays on the run, comes strictly forward when it goes on, stops only where no step is possible, and reports exactly the round that would be repeated without effect |
| HttpObject.HttpRequest.SkipTrailer | webserv/src/HttpRequest.cpp:202-220 | The trailer loop stays on the run, completes at the blank line, and otherwise waits |
| HttpObject.HttpRequest.EndHeaders | webserv/src/HttpRequest.cpp:88-119 | The in-place decision at the blank line: keep-alive, Content-Length against the limit (413), Transfer-Encoding, and the framing by method |
| HttpObject.HttpRequest.ParseRequestLine | webserv/src/HttpRequest.cpp:142-176 | In place: three words, version, method, then URI split at the question mark; 400 and 501 as in the code, true exactly on reaching the headers |
| HttpObject.HttpRequest.ParseHeader | webserv/src/HttpRequest.cpp:178-188 | In place: name before the first colon trimmed and in lower case, value trimmed, 400 without a colon |
| HttpObject.HttpRequest.Reset | webserv/src/HttpRequest.cpp:14-32 | Forgets the request, keeps the unread bytes and the limit |
| HttpEncode.ReadsBack | webserv/src/HttpRequest.cpp:63-255 | A well-formed request (bodyless, Content-Length or chunked with any extensions and trailers) within the limit is read back exactly, header map and body included, whatever bytes follow, and those bytes stay untouched in the buffer; its lines ended by CRLF, or by a bare LF where no CRLF is at hand |
| HttpEncode.ChunksLead | webserv/src/HttpRequest.cpp:222-253 | Chunked decoding undoes chunked encoding: for any list of non-empty chunks with any extensions, within the limit, the body grows by exactly their data and the parser stands behind them |
| HttpEncode.TrailersLead | webserv/src/HttpRequest.cpp:202-220 | Any trailer lines and the blank line behind them are dropped, one line at a time, and complete the request |
| HttpEncode.ExceedsLimit | webserv/src/HttpRequest.cpp:97-104 | A well-formed request whose body exceeds the limit ends in 413, in either coding |
| HttpEncode.ChunksExceed | webserv/src/HttpRequest.cpp:247-250 | Chunks whose total crosses the limit end in 413 at whichever chunk crosses it |
| HttpEncode.EndOfHeaders | webserv/src/HttpRequest.cpp:88-119 | For a well-formed request the blank line is followed by the framing its fields announce, or by 413 if Content-Length exceeds the limit |
| HttpEncode.WordsOfRequestLine | webserv/src/HttpRequest.cpp:142-150 | Splitting a request line at blanks gives back its method, URI and version |
| HttpEncode.ChunkSizeRead | webserv/src/HttpRequest.cpp:230-235 | The number read from a size line is that of its hexadecimal digits, whatever extension follows |
| HttpReadings.LineEndsAt | webserv/src/HttpRequest.cpp:69-73 | A line ends at the first CRLF, or, where there is none, at the first LF |
| HttpReadings.RefusedRequestLines | webserv/src/HttpRequest.cpp:142-164 | From the start of a request, whatever the white space between its words: a line of other than three words, or with an unknown version, ends in 400, one with an unknown method in 501, and the bytes behind it stay |
| HttpReadings.RequestLineRead | webserv/src/HttpRequest.cpp:142-176 | Any other line is taken apart into method, target and version, and the target into the path, each byte of it written as it is, as an escape, or a blank as a plus, and the query behind the first question mark as it stands |
| HttpReadings.PathAndQuery | webserv/src/HttpRequest.cpp:166-173 | A well-formed request within the limit is completed with the path its target was written from, decoded, and with its query; the query is empty without a question mark |
| HttpReadings.RefusedHeaderLine | webserv/src/HttpRequest.cpp:178-183 | A header line without a colon ends in 400, the fields before it kept and the bytes behind it left alone |
| HttpReadings.HeaderLineRead | webserv/src/HttpRequest.cpp:178-188 | A header line is read as its field whatever blanks stand around name and value; the name in lower case, colons in the value kept |
| HttpReadings.HeadersMean | webserv/src/HttpRequest.cpp:56-60 | getHeader gives the value of the last field of a name |
| HttpReadings.AnySizeLine | webserv/src/HttpRequest.cpp:230-235 | Any chunk size line: the number strtol reads before the first semicolon, blanks around the line aside; zero where there is none |
| HttpReadings.KeptAsAsked | webserv/src/HttpRequest.cpp:90-95 | HTTP/1.1 keeps the connection unless the last Connection field says close, HTTP/1.0 only if it says keep-alive, in any case of letters |
| HttpReadings.FramingChosen | webserv/src/HttpRequest.cpp:88-138 | For a head with any fields, lengths and codings repeated or both given: a length over the limit, or one read as negative, ends in 413; GET, HEAD and DELETE complete with no body and leave the bytes; the chunked coding goes before a length; otherwise the body is exactly the announced number of next bytes once they are there |
| HttpPipeline.PipelineRoundTrip | webserv/src/HttpRequest.cpp:14-140 | Any list of well-formed requests within the limit, with either line end, sent one behind the other and delivered in any pieces, is read back exactly and in order by alternating feed and reset, and the parser ends blank with an empty buffer |
| HttpPipeline.ScheduleInvariance | webserv/src/HttpRequest.cpp:14-140 | The requests read from a stream, and the parser left at its end, do not depend on the delivery schedule |
| HttpPipeline.ServedAppend | webserv/src/HttpRequest.cpp:63-140 | New bytes never change the requests completed so far: reading goes on from where it stood |
| Text.FindLine | webserv/src/HttpRequest.cpp:78-84 | The line search finds a line if and only if there is an LF, and the line ends in one |
| Text.ToLower | webserv/src/Utils.cpp:31-36 | The in-place loop gives the string with every byte in lower case |
| Text.SplitWhitespace | webserv/src/Utils.cpp:60-67 | The extraction loop gives the words of the string |
| Text.WordsOfWord | webserv/src/Utils.cpp:60-67 | A word with white space behind it is the first word, and the others are those of the rest |
| Text.UrlDecode | webserv/src/Utils.cpp:123-138 | The loop with its skip over escapes gives the decoded string |
| TextLaws.WordsOfSpaced | webserv/src/Utils.cpp:60-67 | Whatever white space stands between, before and behind words, they are found again, and no others |
| TextLaws.TrimOf | webserv/src/Utils.cpp:24-29 | Trimming takes the blanks around a text and nothing of the text |
| TextLaws.LowerLetters | webserv/src/Utils.cpp:31-36 | The twenty-six letters become their lower-case form; no other byte changes |
| TextLaws.StrtolReads | webserv/src/HttpRequest.cpp:235-235 | For every text: white space, a sign, perhaps 0x and digits are read as that number, kept within a long, whatever stands behind; no digits as zero |
| TextLaws.CastsWrap | webserv/src/HttpRequest.cpp:99-99 | The casts to size_t and int keep the number modulo their width |
| TextLaws.DecodedBytewise | webserv/src/Utils.cpp:123-138 | Decoding of every text, byte by byte: a plus is a blank, a percent sign takes the two bytes behind it for the byte strtol reads from them and stands for itself where there are fewer, every other byte stands for itself |
| Text.UrlRoundTrip | webserv/src/Utils.cpp:123-138 | Decoding undoes encoding for every text, whichever of its bytes are written as they are, as escapes, or a blank as a plus |
| Text.StrtolNumber | webserv/src/HttpRequest.cpp:235-235 | strtol and atol give the number a digit string denotes, when it fits in a long |
| Text.StrtolPrefix | webserv/src/CgiHandler.cpp:226-226 | Digits are read up to the first byte that is none |
| ServerTables.StepKeepsTablesIff | webserv/src/Server.cpp:178-492 | From consistent tables and with fresh descriptors, one event of the loop leads to consistent tables if and only if it is not a CGI program ending its output while its input pipe is still registered |
| ServerTables.TablesInEveryRun | webserv/src/Server.cpp:178-492 | In a run with fresh descriptors the listen, client, CGI-read and CGI-write tables are disjoint and every CGI entry belongs to a live client that owns the descriptor, at every moment, if and only if no CGI program ends its output early |
| ServerEarlyEof.EarlyEofBreaksTables | webserv/src/Server.cpp:360-394 | Such a run exists for every site and every request with a body within its limit that routing sends to a CGI program: accept, read, and the end of the output before the body is written leave the tables inconsistent |
| ServerEarlyEof.EarlyEofHappens | webserv/src/Server.cpp:376-379 | A concrete site, request and run with fresh descriptors that ends with inconsistent tables |
| ServerTables.ReadCgiKeepsIff | webserv/src/Server.cpp:360-394 | The one transition that can leave a stale CGI-write entry, and exactly when it does |
| ServerLinks.LinkedInEveryRun | webserv/src/Server.cpp:178-492 | In every run with fresh descriptors, early ends of output included, at every moment: the tables are disjoint, every CGI-read entry names the live client that waits on it, every waiting client has its entry, and no other client owns a pipe; only CGI-write entries can be stale |
| ServerLinks.StepLinked | webserv/src/Server.cpp:189-208 | Every event with fresh descriptors keeps that, whatever a stale CGI-write entry names |
| ServerLinks.ReadersOneToOne | webserv/src/Server.cpp:1110-1114 | There CGI-read entries correspond one to one to the clients that wait for CGI output |
| ServerTables.RegisterKeeps | webserv/src/Server.cpp:1079-1115 | Starting a CGI program on fresh pipes keeps the tables consistent |
| ServerTables.CloseKeeps | webserv/src/Server.cpp:458-492 | Closing a client, with or without a CGI program running, keeps the tables consistent |
| ServerTables.WriteCgiKeeps | webserv/src/Server.cpp:326-356 | Feeding a CGI program, and stopping to, keeps the tables consistent |
| ServerAnswers.ResponseOrder | webserv/src/Server.cpp:249-322 | In every run with fresh descriptors, whenever CGI programs finish, on every connection live or closed: the bytes sent are a prefix of the concatenated responses to the successive requests, each response being the one to its own request (the error page where the server refuses it, what routing responds, or what is made of exactly the output read from the CGI program started for it); the requests are the first ones the received bytes carry, at most one is still unanswered, and a running CGI program has been handed a prefix of its request's body |
| ServerAnswers.WellFormedInOrder | webserv/src/Server.cpp:249-322 | For a client that sends well-formed requests with bodies of any size, whatever part of them has arrived in whatever pieces: the bytes sent are a prefix of the concatenated responses to the requests it sent, in order, up to the first one over the largest configured limit, which gets the page for 413 and is the last |
| ServerAnswers.ExpectedOutcomes | webserv/src/HttpRequest.cpp:63-255 | What is read of the bytes of any well-formed requests, of any size: each one back exactly up to the first over the limit, and then its failure |
| ServerAnswers.FailsAlike | webserv/src/HttpRequest.cpp:97-104 | A request over the limit fails with 413 and the same message whatever bytes follow it |
| ServerAnswers.ExpectedWithin | webserv/src/HttpRequest.cpp:63-255 | With none over the limit, all of them are read |
| ServerAnswers.OkMeansInOrder | webserv/src/Client.cpp:20-28 | The invariants of a connection imply that promise for it |
| ServerAnswers.StepTied | webserv/src/Server.cpp:189-208 | Every event of the loop keeps each response tied to its request, and each waiting client to the output of its own program |
| ServerAnswers.FinishedTied | webserv/src/Server.cpp:396-438 | The response made at the end of CGI output is the one to the request the program was started for |
| ServerAnswers.ProcessTied | webserv/src/Server.cpp:612-674 | What is queued for a request read, refused or routed, is the response to that request |
| ServerConversations.AllAnswered | webserv/src/Server.cpp:249-322 | In any run with fresh descriptors, whatever other clients do: a client that from some moment on sends nothing but well-formed requests within their limits that ask to keep the connection, and takes its responses, is never disconnected, and no event of its socket keeps the server from returning; every response queued is the answer to its own request; and once all is received and the server waits for it again, all requests have been answered and every answer sent |
| ServerConversations.EverythingSent | webserv/src/Server.cpp:289-322 | Where routing answers such requests at once, sending on brings every such conversation to that end: some further sends leave the client connected and waited for, with exactly the concatenated answers to all its requests sent |
| ServerConversations.ClosedBehind | webserv/src/Server.cpp:311-321 | Where not all requests ask to be kept (Connection: close, or HTTP/1.0 without keep-alive): an event that ends such a connection comes right behind the complete response to the first request that does not; all before it have been answered, none behind it is |
| ServerConversations.DisconnectedExactly | webserv/src/Server.cpp:189-322 | A connection ends exactly when it times out, its client is at its end or ready for output while it is waited for, a send fails, its socket has an event while a program runs, or the rest of a response is sent that it is not kept behind |
| ServerConversations.SendingShrinks | webserv/src/Server.cpp:289-322 | Every send shortens the response, or goes on with a request that was still unread, or ends the sending |
| ServerConversations.AcceptedExactly | webserv/src/Server.cpp:220-236 | A connection accepted stands at its socket with nothing read, sent or remembered, all others as before; a failed accept changes nothing |
| ServerConversations.ExpiredClosed | webserv/src/Server.cpp:442-454 | A check for timeouts removes the expired clients, all of them, and leaves every other as it is |
| ServerProgress.ServedSoFar | webserv/src/Server.cpp:249-322 | What holds of a client that has sent some part of well-formed requests: those gone on from all asked to stay, each response is an answer to its request, and the keep-alive flag is what the request being answered asks for |
| ServerProgress.StepFlagged | webserv/src/Server.cpp:189-208 | Every event keeps the flag so |
| ServerPipes.WholeBodyGiven | webserv/src/Server.cpp:326-356 | In every run with fresh descriptors, for every client that waits for a CGI program: while the pipe to it is open it is entered and part of the body is unwritten; and if no write has failed, the pipe is closed exactly when the program has been given the whole body of the request |
| ServerPipes.StepPlugged | webserv/src/Server.cpp:189-208 | Every event keeps that |
| ServerPipes.WriteGives | webserv/src/Server.cpp:343-355 | One write of n bytes gives the program the next n, or all that is left; the entry is gone and the pipe closed exactly if n is at least what was left |
| ServerPipes.FailedWriteGives | webserv/src/Server.cpp:344-349 | A failing write gives nothing and ends the giving |
| ServerPipes.OutputCollected | webserv/src/Server.cpp:360-438 | Output is collected in the order in which it comes; at its end the response made from all of it is queued, and the keep-alive flag stays |
| ServerOrder.StepOk | webserv/src/Server.cpp:189-208 | Every event of the loop keeps that invariant on every connection |
| ServerOrder.NextOk | webserv/src/Server.cpp:311-318 | Resetting and feeding nothing after a response goes on with exactly the next pipelined request |
| ServerOrder.SendSomeOk | webserv/src/Client.cpp:20-28 | Taking sent bytes off the send buffer loses and doubles none |
| ServerOrder.PipeSomeOk | webserv/src/Client.cpp:32-39 | Taking written bytes off the body for the CGI program loses and doubles none |
| ServerLimits.TwoStagesAreOne | webserv/src/Server.cpp:612-646 | For a well-formed request in either coding, any configuration and any following bytes, the server itself answers 413 exactly when the body exceeds the limit of the location (else server) that will serve it; otherwise it goes on to handle the request |
| ServerLimits.AnsweredWithinLimit | webserv/src/Server.cpp:249-264 | Seen from the connection: over that limit the 413 page is queued and keep-alive ends; within it, what routing responds to the request is queued, or the CGI program gets the whole body and starts with no output collected; and the connection is to be kept as the Connection field and the version ask |
| ServerLimits.LimitApplies | webserv/src/Server.cpp:612-638 | Which limit that is: the one of the longest location covering the decoded path of the target, if it sets one, and else that of the server block which answers to the Host field |
| ServerLimits.UnreadableAnswered | webserv/src/Server.cpp:249-260 | A request that cannot be read is answered with the page for its own error code, 400, 413 or 501, and ends keep-alive |
| Routing.Ceiling | webserv/src/Server.cpp:85-97 | The loop computes the least bound of the default limit and of every configured server and location limit |
| Routing.CeilingDominates | webserv/src/Server.cpp:85-97 | That bound dominates the limit of any path on any server |
| Routing.FindLocation | webserv/src/Server.cpp:523-540 | The loop finds the first of the longest configured paths that cover the request path at a segment boundary, and nothing exactly when none covers it |
| Routing.CoversMeans | webserv/src/Server.cpp:528-534 | A location covers its own path and what lies below it, a path ending in a slash everything that goes on behind it; not paths that merely begin with the same letters |
| Routing.BestIsUnique | webserv/src/Server.cpp:523-540 | Any location with those properties is the one chosen |
| Routing.ChoiceIgnoresOrder | webserv/src/Server.cpp:523-540 | With distinct paths the chosen location is the same under any reordering of the location blocks |
| Routing.FindServer | webserv/src/Server.cpp:496-521 | The nested loops find the first server block on the listening port that has the host's name, else the block the socket was opened for |
| Routing.HostNameRead | webserv/src/Server.cpp:503-506 | The Host field is read without its port, split at the last colon |
| Routing.OneServerFor | webserv/src/Server.cpp:496-521 | There is one such server block |
| Routing.ServerFor | webserv/src/Server.cpp:496-521 | That choice satisfies the search condition: first match on the port by name, the default exactly when there is none or no name |
| ServerObject.Server.HandleReady | webserv/src/Server.cpp:189-208 | For every valid server and event: the in-place handlers do exactly the step of the model; the object is valid again if and only if the event is not an early end of CGI output; and the server is reported to hang exactly where feed loops for ever |
| ServerObject.Server.constructor | webserv/src/Server.cpp:82-144 | After init the ceiling is the least bound, every socket stands for its server block, and no client or CGI entry exists |
| ServerObject.Server.AcceptClient | webserv/src/Server.cpp:220-236 | A new client stands in the table, reading, with a blank parser; a failed accept changes nothing |
| ServerObject.Server.ReadClient | webserv/src/Server.cpp:266-285 | Closes on no data, else feeds the parser and answers a request that is complete or unreadable; hangs exactly where feed does |
| ServerObject.Server.FeedAndProcess | webserv/src/Server.cpp:249-264 | On the client object: parse, error page and end of keep-alive on failure, processing on completion; the CGI tables gain exactly the pipes of a program started |
| ServerObject.Server.ProcessRequest | webserv/src/Server.cpp:612-674 | Server, limit and routing decide as the model says, 413 included |
| ServerObject.Server.BodyLimit | webserv/src/Server.cpp:622-638 | The limit looked up through server and location is the one the model names |
| ServerObject.Server.StartCgiForClient | webserv/src/Server.cpp:1079-1115 | The transient writing state ends as reading; the write end is entered with a body and closed without one |
| ServerObject.Server.WriteClient | webserv/src/Server.cpp:289-322 | Send what the socket takes; when all is sent, go on with the next pipelined request or close; hangs exactly where that feed does |
| ServerObject.Server.WriteCgi | webserv/src/Server.cpp:326-356 | Write what the pipe takes; stop and forget the descriptor at the end of the body or on failure |
| ServerObject.Server.ReadCgi | webserv/src/Server.cpp:360-394 | Collect output; at its end close both pipes, queue the response, and leave the write entry as it is; valid again exactly if the write end had been closed |
| ServerObject.Server.FinishCgi | webserv/src/Server.cpp:396-438 | Queues the response made from the output and goes on to sending |
| ServerObject.Server.CloseClient | webserv/src/Server.cpp:458-492 | Removes the client and both its CGI entries, nothing else |
| ServerObject.Server.CheckTimeouts | webserv/src/Server.cpp:442-454 | Closes exactly the expired clients, one after the other |
| ServerObject.Client.ConsumeSendBuffer | webserv/src/Client.cpp:22-27 | Drops the bytes sent from the front, all of them if more are claimed |
| ServerObject.Client.ConsumeCgiBody | webserv/src/Client.cpp:34-39 | The same for the body of the CGI program |
| ServerObject.Client.ClosePipes | webserv/src/CgiHandler.cpp:181-184 | Closes the pipe ends that are open |
| ServerObject.Client.CloseWritePipe | webserv/src/CgiHandler.cpp:174-179 | Closes the write end if it is open |
| Address.AddressRoundTrip | webserv/src/Server.cpp:34-66 | Reading the dotted form of any 32-bit address gives the address back, through byte order, decimal printing and digit accumulation |
| Address.ParseIPv4 | webserv/src/Server.cpp:34-56 | The one-pass loop returns the address of the four parts if the text between the dots is a dotted quad, and the wildcard otherwise, for every text |
| Address.ReadsExactlyQuads | webserv/src/Server.cpp:34-56 | Accumulating digits up to each dot refines splitting at the dots first and judging the fields |
| Address.PromiseKeptIff | webserv/src/Server.cpp:31-56 | For every text: the documented result (the address of four numbers of at most 255, the wildcard for anything malformed) is returned if and only if the text is not four digit fields whose values modulo 2^64 are at most 255 and not all zero while some field denotes more than 255 |
| Address.PromiseBroken | webserv/src/Server.cpp:40-43 | Malformed texts with a first part of 2^64 + n, n from 1 to 255, are read as the address n.0.0.1 instead of the wildcard |
| Address.SwappedTwice | webserv/src/Server.cpp:54-61 | Byte-order conversion is its own inverse on 32-bit numbers |
| Address.AddressOfQuad | webserv/src/Server.cpp:54-66 | a.b.c.d is read as, and written from, the number a + 256 b + 65536 c + 16777216 d: the first part is the byte stored first |
| Text.DecimalNumber | webserv/src/Server.cpp:60-66 | Decimal printing of any number gives digits that denote it |
| FordJohnson.Sort | cpp_5-9/cpp9/ex02/PmergeMe.cpp:122-171 | For every input: the result is a function of the elements alone and a permutation of them, and it is sorted if and only if at every recursion level with more than 16 elements the smaller of the first pair is at most every larger-of-pair element |
| FordJohnson.VersionsAgree | cpp_5-9/cpp9/ex02/PmergeMe.cpp:122-246 | For every list of numbers, sortable or not, the vector and the deque end with the same sequence |
| FordJohnson.PmergeMe.SortBoth | cpp_5-9/cpp9/ex02/PmergeMe.cpp:248-260 | Both containers are sorted in place, each to the result its elements determine |
| FordJohnson.NotAlwaysSorted | cpp_5-9/cpp9/ex02/PmergeMe.cpp:155-160 | The sort does not sort (100, 99) followed by eight or more pairs (2, 1) |
| FordJohnson.SortableLengths | cpp_5-9/cpp9/ex02/PmergeMe.cpp:125-160 | All inputs of a length are sorted if and only if the length is at most 16 |
| FordJohnson.InsertionOrder | cpp_5-9/cpp9/ex02/PmergeMe.cpp:155-168 | At a level with more than 16 elements: the smaller element of the first pair goes in front of the sorted larger ones, the other smaller ones are inserted from the last down to the one at the largest Jacobsthal number below their count, then the rest from the first on, and the straggler last |
| FordJohnson.SortedIsSortable | cpp_5-9/cpp9/ex02/PmergeMe.cpp:122-171 | An input already in order meets the condition at every level |
| FordJohnson.InsertPending | cpp_5-9/cpp9/ex02/PmergeMe.cpp:100-120 | The two loops insert every pending element exactly once, and leave the chain sorted if and only if it was |
| FordJohnson.WithPendingKeeps | cpp_5-9/cpp9/ex02/PmergeMe.cpp:100-120 | The same of the function they compute |
| FordJohnson.InsertChosen | cpp_5-9/cpp9/ex02/PmergeMe.cpp:105-112 | The Jacobsthal pass inserts exactly the elements whose indices it records |
| FordJohnson.GenerateJacobsthalSequence | cpp_5-9/cpp9/ex02/PmergeMe.cpp:52-71 | The loop ends, and for two or more elements yields exactly the descending run from len-1 to J(k), where J(k) < len <= J(k+1) |
| FordJohnson.RunIsUnique | cpp_5-9/cpp9/ex02/PmergeMe.cpp:52-71 | There is one such run for each length |
| FordJohnson.Jacobsthal | cpp_5-9/cpp9/ex02/PmergeMe.cpp:37-50 | The loop computes the Jacobsthal number |
| FordJohnson.ClosedForm | cpp_5-9/cpp9/ex02/PmergeMe.cpp:37-50 | 3 J(n) = 2^n - (-1)^n |
| FordJohnson.StrictlyIncreasing | cpp_5-9/cpp9/ex02/PmergeMe.cpp:60-69 | The numbers grow strictly from the second on, which ends the loop above |
| FordJohnson.UpperBound | cpp_5-9/cpp9/ex02/PmergeMe.cpp:109-109 | The binary search ends at a position in range that the elements and the value determine; on a sorted range, the one that separates what is at most the value from what exceeds it |
| FordJohnson.InsertKeepsOrder | cpp_5-9/cpp9/ex02/PmergeMe.cpp:109-110 | Inserting at such a position neither spoils nor repairs the order |
| FordJohnson.InsertionSort | cpp_5-9/cpp9/ex02/PmergeMe.cpp:125-136 | The shifting loops sort and permute up to 16 elements |
| FordJohnson.SplitPairs | cpp_5-9/cpp9/ex02/PmergeMe.cpp:138-153 | Pairing takes the larger elements into the main chain and the smaller ones into the pending list |
| FordJohnson.PairsPermute | cpp_5-9/cpp9/ex02/PmergeMe.cpp:139-146 | Larger elements, smaller elements and the straggler together are the input |
| FordJohnson.MergePending | cpp_5-9/cpp9/ex02/PmergeMe.cpp:157-163 | Putting the first pending element in front unchecked gives a sorted chain exactly if it is at most all of the chain |
| Rpn.AcceptsExactlyPostorders | cpp_5-9/cpp9/ex01/RPN.cpp:67-94 | A fresh evaluation stays in the range of int at every step and succeeds with v if and only if the tokens are the postorder of an expression tree over single digits that has value v in infix reading, with truncating division, no zero divisor and the value of every subtree in that range |
| Rpn.RPN.Evaluate | cpp_5-9/cpp9/ex01/RPN.cpp:67-88 | From whatever stack is left, the token loop ends as running the tokens does; true exactly with one element left |
| Rpn.RPN.PerformOperation | cpp_5-9/cpp9/ex01/RPN.cpp:37-65 | Pops its operands and pushes the result; fails as the code throws, with the operands gone |
| Rpn.Calculate | cpp_5-9/cpp9/ex01/main.cpp:8-23 | The program prints the value of its argument whenever that is the postorder of such a tree; where no operation on the way leaves the range of int, every other argument gets its error message |
| Rpn.QuotientTruncates | cpp_5-9/cpp9/ex01/RPN.cpp:56-59 | Division leaves a rest smaller than the divisor, with the sign of the dividend |
| Rpn.ExecPostorder | cpp_5-9/cpp9/ex01/RPN.cpp:67-80 | Running the postorder of a tree pushes its value and nothing else, whatever follows |
| Rpn.ExecBuilds | cpp_5-9/cpp9/ex01/RPN.cpp:67-80 | Every good run builds trees, one for each stack element, whose postorders are the tokens read |
| CgiOutput.CgiRoundTrip | webserv/src/CgiHandler.cpp:186-233 | For a header block of fields with distinct names (names that differ in case are distinct), at most one of them Status in any case, with any blanks around names and values and lines without a colon in between, and any body, blank lines in it included: the body comes back, each field under its name and nothing else, and the status is that of the Status field, 200 without one. Lines end in CRLF, or in a bare LF where the output has no empty CRLF line |
| CgiOutput.BlockRoundTrip | webserv/src/CgiHandler.cpp:186-233 | The same block without distinct names: exactly its fields, in order, and the body |
| CgiOutput.StatusOrHeader | webserv/src/CgiHandler.cpp:216-229 | A field named Status, in any case of letters, sets the status, any other is put under its name as written |
| CgiOutput.NoBlockRead | webserv/src/CgiHandler.cpp:196-206 | Output without an empty line of either kind is all body, with status 200 and no header |
| CgiOutput.ParseCgiOutput | webserv/src/CgiHandler.cpp:186-233 | The separator search and the line loop give the parsed reply, for every output |
| CgiOutput.FirstBlank | webserv/src/CgiHandler.cpp:195-200 | The first empty line of the output is the one behind the block, for either line end |
| CgiOutput.StatusNumber | webserv/src/CgiHandler.cpp:225-226 | A status such as "404 Not Found" is read as its number |
| ConfigCanonical.ConfigRoundTrip | webserv/src/Config.cpp:16-232 | Tokenizing and parsing the canonical text of any configuration whose strings can be written without quotes, with listen host:port or, for the default host, listen port, gives that configuration back: servers, locations, names, methods, limits, redirects, CGI and error-page maps |
| ConfigText.BlocksRoundTrip | webserv/src/Config.cpp:74-220 | The text of any server blocks, with directives in any order, repeated or unknown, is read as what the directives mean one after the other |
| ConfigTokens.TokensOfSpelled | webserv/src/Config.cpp:16-61 | Tokenizing the written tokens gives them back |
| ConfigTokens.Tokenize | webserv/src/Config.cpp:16-61 | The loop over white space, comments, delimiters, quoted and bare words gives the tokens, for every text |
| ConfigDirectives.ServerFileRead | webserv/src/Config.cpp:74-160 | A file of one server block with any directives is read as their effects, one after the other: ports, limits with their units and codes as the numbers written in decimal, names added, unknown directives and stray semicolons passed over |
| ConfigDirectives.ServerEntryRead | webserv/src/Config.cpp:101-155 | Each directive of a server block has its effect, listen with a port leaving the host alone, and the cursor goes behind it, with a semicolon or, where the next word cannot be one of its arguments, without |
| ConfigDirectives.LocationEntryRead | webserv/src/Config.cpp:162-216 | The same in a location block: three spellings of methods, return with a status code and without (302), any word but on for autoindex off |
| ConfigDirectives.BlocksEnd | webserv/src/Config.cpp:129-159 | A block ends behind its brace or with the file, and a location is added to its server |
| ConfigDirectives.Refused | webserv/src/Config.cpp:74-141 | Refused are directives the file ends before the arguments of, a location without its brace, anything but a server block at the top, and a file without any |
| ConfigDirectives.AnySize | webserv/src/Config.cpp:222-232 | Any text as a limit: the number it begins with, in size_t, times the unit of its last byte; 0 for an empty one |
| ConfigTokens.SpaceRead | webserv/src/Config.cpp:20-23 | White space separates tokens |
| ConfigTokens.CommentRead | webserv/src/Config.cpp:24-29 | A comment goes up to the end of its line or of the file |
| ConfigTokens.DelimiterRead | webserv/src/Config.cpp:30-35 | A brace or semicolon is a token whatever stands around it |
| ConfigTokens.QuotedRead | webserv/src/Config.cpp:36-48 | Between quotes of one kind everything is taken as it is; without a second quote, up to the end of the file |
| ConfigTokens.WordRead | webserv/src/Config.cpp:49-58 | A word goes up to white space, a brace, a semicolon or a comment |
| ConfigParser.Config.Parse | webserv/src/Config.cpp:74-95 | The loop over server blocks ends with the servers the cursor specification gives, added to those already there; true exactly if there are any and no block failed |
| ConfigParser.Config.ParseServer | webserv/src/Config.cpp:98-160 | Adds the server read, or leaves the list alone and fails |
| ConfigParser.Config.ParseLocation | webserv/src/Config.cpp:162-220 | Reads the location block and leaves the cursor behind it, or fails |
| ConfigParser.ServerBlock | webserv/src/Config.cpp:98-160 | The shared cursor stays in bounds and never goes back |
| ConfigParser.LocationDirective | webserv/src/Config.cpp:162-216 | Every directive read advances the cursor, in bounds |
| ConfigParser.ServerDirective | webserv/src/Config.cpp:101-155 | The same in a server block, nested location blocks included |
| ConfigCanonical.DecimalReads | webserv/src/Config.cpp:222-232 | A limit, port or code written in decimal is read as that number |
| ConfigCanonical.SuffixReads | webserv/src/Config.cpp:222-232 | The suffixes k, m and g in either case multiply the number, in size_t |
| ConfigCanonical.ListenReads | webserv/src/Config.cpp:104-115 | host:port is taken apart at the last colon |
| ConfigCanonical.PortReads | webserv/src/Config.cpp:115-117 | A port without a host is read as the port and leaves the host alone |
| Life.Play | exam_rank_5_training/level_2/life/life.c:9-43 | After any number of iterations the board holds exactly the live cells of the generation function applied that many times to the cells the pen was down on |
| Life.Draw | exam_rank_5_training/level_2/life/life.c:17-24 | The command loop marks exactly the cells on which the pen stood down |
| Life.After | exam_rank_5_training/level_2/life/life.c:17-24 | The pen never leaves a board with positive dimensions |
| Life.Walks | exam_rank_5_training/level_2/life/life.c:17-24 | The same command n times moves the pen n cells up, left, down or right, up to the wall and no further; x lowers and lifts it; other bytes do nothing |
| Life.DrawsCell | exam_rank_5_training/level_2/life/life.c:17-24 | Every cell of the board can be drawn, and drawn alone |
| Life.RulesOfLife | exam_rank_5_training/level_2/life/life.c:27-36 | With fewer than two or more than three of the eight cells around it alive a cell is dead in the next generation, with three alive, with two as it is; beyond the edge nothing lives |
| Life.Step | exam_rank_5_training/level_2/life/life.c:27-38 | The nested loops fill the second board with the next generation, cells outside the board counting as dead |
| Life.CountNeighbours | exam_rank_5_training/level_2/life/life.c:29-35 | The loop over the nine offsets counts the live neighbours |
| Life.LightCone | exam_rank_5_training/level_2/life/life.c:26-43 | What lives at a cell after t generations depends only on the cells at most t away |

## Left out

- HttpSplit.SplitInvariance: one direction only. The condition is exact for each single step (`LineStepInvariantIff`, `ChunkStepInvariantIff`), but whole runs can agree by coincidence without it: a header repeated later with another value hides how an earlier line with a bare LF was read.
- HttpCrlf.CrlfSplitInvariance: sufficient, not necessary, for the same reason; a run may also wait for ever at a line that breaks the condition.
- HttpParser.Run: stops on the state in which the code loops for ever; that the code does not return there is what `Spins`, and `hangs` in the methods, say.
- HttpStreams.FeedReturns: sufficient, not necessary; the exact condition is on the last size line (`SpinsExactly`).
- HttpObject.HttpRequest: the fields other than the buffer are kept in one record. String lengths are taken to stay below 2^63.
- HttpEncode.ReadsBack: each request has a single framing field, written as "Content-Length" or "Transfer-Encoding", and its fields are written with one blank behind the colon; what other fields and spacings give is `FramingChosen` and `HeaderLineRead`. Bare LF line ends are covered where no CRLF is at hand, since with one the first line goes up to it.
- ServerAnswers.ResponseOrder: claims prefix safety for all clients; that every request is answered is `AllAnswered`, for a client that takes its responses, since a socket event while a CGI program runs closes the connection. It assumes that no descriptor is handed out again while an entry for it, a stale one included, stands in a table; this is the kernel's doing except for the number of a write pipe that `readCgi` closed but left in its table. What the text of a response to a request is, is not modelled: any function of the request and the moment.
- ServerConversations.EverythingSent: for requests that routing answers at once; where it starts CGI programs, that they come to an end is theirs, and `AllAnswered` says what holds when they have.
- ServerLimits.TwoStagesAreOne: for a single framing field, as above; errors that routing itself may answer with are part of its response.
- ServerObject.Server.StartCgiForClient: CGI setup is assumed to succeed; when it fails, the queued 500 is overwritten by an empty response (webserv/src/Server.cpp:1085-1091, 671). As a response that is one routing may give, routing being arbitrary; what is not modelled is the pipe fields left behind (webserv/src/CgiHandler.cpp:116-131).
- ServerObject.Server: where feed loops for ever the model reports it and stops; no later event is claimed to be handled. The search for the listening socket of a client always succeeds. The state CLIENT_DONE is never set by the code. An event on a stale CGI-write entry whose client is gone changes nothing in the model; following the dangling pointer, as the code would, is not modelled.
- ServerObject.Server.CheckTimeouts: the expired clients are given; clocks and activity times are not modelled.
- FordJohnson.Sort: the vector and deque versions are the same code over two containers and modelled once, on sequences handed in and out; overflow of `size_t` by Jacobsthal numbers, which no vector length reaches, is not modelled.
- Rpn.Calculate: where a value leaves the range of int the program's result is undefined, and nothing is claimed about what it prints.
- ConfigCanonical.ConfigRoundTrip: strings that need quotes, negative numbers, and limits above the range of long have no canonical text here; the tokenizer is modelled with quotes all the same.
- ConfigParser.Config.Parse: opening and reading the file, and the messages on standard error, are not modelled.
- Address.ParseIPv4: byte order is that of a little-endian machine.
- Life.Play: dimensions are positive; printing the board and reading the arguments are not modelled. The two boards are heap arrays.
- Text.Strtol: the number is given for bases 10 and 16 without locale or error reporting.
- Sockets, epoll registration, fork and exec, signals, files and directory listings are inputs of events or not part of this model.
- Response building, HTML and error pages, MIME types, dates, cookies and the session manager.
- Resolving paths, static files, uploads (every second multipart part is skipped by the code) and the methods' handlers: routing's answer is an input.
- The Connection header, which error paths write before keep-alive is switched off.
- The other exercises of the repository: thin wrappers over library containers, shell and container configuration, and the CGI scripts.
