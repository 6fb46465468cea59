# A verified model of the web server

The server answers HTTP/1.1 requests from one `kqueue` loop. Listening sockets
accept connections; each connection is an event that moves from reading a request,
to writing its body to a file or flushing it away, to reading a response from a
file, to writing it to the client, and back. This project models that path in Dafny
and proves what it keeps.

Four parts are linked by lemmas and by class contracts.

* **Requests.** `Storage` is the byte vector with its two cursors; `HttpRequest` is
  the resumable parser, the walk that looks for the end of a chunked body, and the
  decoder that later writes the same bytes to a file. `RequestModel` says on values
  what each call does, and the class is proved to do it. On that rest `Segmentation`,
  `Trouble` and `Agreement` (exactly when the cut of the input into pieces does not
  matter), `Chunked` (the two walks agree, and decoding is the inverse of encoding
  under every pattern of partial writes; section 7.1 of RFC 9112 without extensions
  and trailers), `Framing` (both together, from the socket to the file), `HeadLines`
  (what is written in a head is read back from it) and `KeepAlive` (a reused request
  object behaves like a new one).
* **Responses.** `ResponseModel` and `HttpResponse` are the pump from file to store
  to socket, `CgiResponse` the scan of a CGI answer with its seeks, and
  `ResponseFactory` the choice of a response with the header that declares its length
  (section 6.2 of RFC 9112).
* **Connections.** `Servers` says which virtual server a request is for. `Kernel` models
  the event queue as a map from descriptor and filter to a registration, with pending
  changes, and descriptors as a set from which `open` and `accept` never hand out a
  member. `EventModel` gives the effect of each served step, `EventSafety` shows it proper
  and says where it leads and when it is cut short, `EventRuns` carries the invariant over every sequence of actions, and the classes
  `EventHandler`, `VirtualServer` and `Router` are proved to perform these actions, a
  whole turn of the loop at a time. `Environment` shows that what they assume to be given
  can be given. `Exchange` and `Delivery` follow one request to
  the end of its response; `Incidents` has runs that end badly.
* **Paths.** `Config` reads the locations, `Locations` resolves a URI to one of them,
  and `FileManager` joins paths and makes missing directories, all or none.

System calls are choices of the environment. A write or a send takes any number of
the bytes it is asked for, or fails; a receive hands over any piece up to the size of
the buffer; a poll returns any choice of enabled registrations, or the pending changes
that fail if there are any. The calls by which a served step can throw fail or not as
the environment likes, but for the one that unlinks the file that bodies are flushed to,
which fails when it is gone. Clock readings, MIME types and status messages are
parameters.

## Findings

Some promises do not hold of the code as it stands; each is stated exactly.

* Two cuts of one stream can be parsed to different requests. `getLine` returns ""
  both for a line that is empty even without its CR and for "no line yet", and a
  refused chunk size ends the parse only if little enough of what follows has come.
  All cuts agree if and only if no line follows the first bare one, and at most one
  byte follows the first refused size (`CutsAgreeExactly`; when a stream that begins
  with a lone LF fills whole buffers, that LF is always parsed for itself and does not
  count). Every part of a well-formed request is free of both (`PartsOfChunked`,
  `PartsOfMeasured`).
* What the scan of a CGI answer has read ahead is sent before the body, which is then
  cut short by as much. With full reads, and header lines shorter than a buffer, the
  client gets the body exactly when the buffers that it takes to read the header have
  all of the answer, or the body repeats itself at the distance that they reach into it
  (`DeliverAnswer`); with other reads, at the distance of whatever had been read ahead
  (`CgiBodyDelivered`).
* Removing a connection that waits for a CGI answer, or for the flush of a body,
  leaves its file registered for an event that is gone (`RemovalIsCleanExactly`). The
  flush itself deletes its registration first. A look at a CGI answer brings it about
  exactly when the lines run out before an empty or blank one, in what was read; with
  full reads, and lines shorter than a buffer, in what is left of the answer
  (`CgiResponse.ParseRequest`). A blank line at which the header is not complete leaves
  the answer to another look. So, over all looks, the answer goes to its server only if
  one of its blank lines finds the header complete, and with such reads, once it is
  decided, exactly then (`Watch`). Without such a line it is given up, unless it has been
  read to its end and is not returned by a poll again: then it waits for ever. "Status:
  200 OK" and a line feed is given up at the first look (`StatusAloneIsUnended`), the same
  with a blank line and more to come at the second (`IncompleteIsUnended`). A run comes to
  each of them, the empty answer if a poll returns a file at its end
  (`UnendedAnswerDangles`). What is left behind stays registered for ever, and is all that
  is (`RouteLosesExactly`, `RegistrationsOverRuns`).
* A step can throw a string, which nothing catches and which ends the server: exactly
  when it serves a GET sent to a CGI program that was refused before, or stands at a
  size line that is no number, its time is not over, and no call fails first
  (`AbortsExactly`; a failing fork aside). A GET with a malformed header field does it
  (`MalformedGetAborts`).
* Otherwise steps throw exactly when one of their calls fails (`ThrowsExactly`). All
  connections flush to one file name. Over every run, the end of a flush finds nothing to
  unlink exactly when another event has ended its own since the file was last opened
  (`FlushesOverRuns`); two clients that send a POST at once are enough
  (`OverlappingFlushesFail`). The factory throws for a URI shorter than the id of its
  location, as the empty one is (`MakeResponse`).
* A URI that is not empty, does not begin with a slash and has no configured ancestor,
  as in "GET abc HTTP/1.1", keeps the server in a loop for ever
  (`LoopEndsExactly`, `FindLocationInfo`).
* After a failed read of a download, the same registration is deleted twice. Every
  change queued by any other step finds its registration (`ServeFindsExactly`), and over
  every run all pending changes do, exactly when no read of a download has failed
  (`ChangesFindOverRuns`). Otherwise the next poll returns an entry without an event,
  which the stamping of the batch dereferences (`NullExactly`, `Turn`); a run comes to
  that (`FailedReadMeetsNull`).

## Model

| member | source | states |
|---|---|---|
| Text.LineSplits | server/Storage/Storage.cpp:13-22 | line, LF and new unread bytes make up the old unread bytes, with no LF in the line; or there is no LF and nothing changes |
| Storage.Storage.Insert | server/Storage/Storage.hpp:58-70 | the source is appended to what is held and to what is unread, whatever stale cells it overwrites |
| Storage.Storage.From | server/Storage/Storage.hpp:72-74 | a store built from bytes holds just these, all unread |
| Storage.Storage.Clear | server/Storage/Storage.cpp:8-11 | nothing is held any more; only the cursors move |
| Storage.Storage.GetLine | server/Storage/Storage.cpp:13-22 | takes the front line and its LF, or "" and nothing when no LF is unread |
| Storage.Storage.MoveReadPos | server/Storage/Storage.cpp:24 | the read cursor moves by the `int` it is given and stays within what is held |
| Storage.Storage.Remains | server/Storage/Storage.hpp:39 | the unread count, narrowed to `int` |
| Storage.Storage.PreserveRemains | server/Storage/Storage.cpp:26-33 | the in-place shift keeps the unread bytes and makes them all that is held |
| Storage.Storage.MemToFile | server/Storage/Storage.cpp:35-46 | what the write took is exactly what leaves the front, for any count up to what was asked and is there; a failure closes and moves nothing |
| Storage.Storage.MemToSock | server/Storage/Storage.cpp:47-58 | the same for a send |
| Storage.Storage.FileToMem | server/Storage/Storage.cpp:60-71 | what the store holds and what the file still has are conserved as a whole |
| Storage.Storage.SockToMem | server/Storage/Storage.cpp:73-89 | a piece is appended; the state tells an unfilled buffer, a full one and a closed peer apart |
| Storage.Storage.GetLineFile | server/Storage/Storage.cpp:98-122 | the line at the front after at most one read, or a closed store; file offset and write cursor move together |
| HttpRequest.HttpRequest.constructor | server/HttpRequest/HttpRequest.hpp:67-84 | a new request is the fresh one |
| HttpRequest.HttpRequest.Initialize | server/HttpRequest/HttpRequest.cpp:14-32 | all but cookies, version, body position and stale cells is as in a new request |
| HttpRequest.HttpRequest.ParseStartLine | server/HttpRequest/HttpRequest.cpp:172-214 | which start lines are refused, and what an accepted one sets |
| HttpRequest.HttpRequest.ParseHeaderField | server/HttpRequest/HttpRequest.cpp:216-275 | when the fields go on, which line is refused, and what each field sets |
| HttpRequest.HttpRequest.ParseChunkSize | server/HttpRequest/HttpRequest.cpp:307-320 | the size on a line of plain hexadecimal digits ended by CR, saturating; a bad request otherwise |
| HttpRequest.HttpRequest.SkipChunk | server/HttpRequest/HttpRequest.cpp:296-301 | the guard makes the narrowing to `int` exact, and a skip leaves strictly less unread |
| HttpRequest.HttpRequest.ParseChunk | server/HttpRequest/HttpRequest.cpp:277-305 | the resumable loop ends, and does what the recursive walk does from wherever it stood |
| HttpRequest.HttpRequest.ParseRequest | server/HttpRequest/HttpRequest.cpp:113-156 | one call is one `Receive` step: parsing happens after an unfilled buffer only, and its result is dropped when the time is over |
| HttpRequest.HttpRequest.UploadRequest | server/HttpRequest/HttpRequest.cpp:54-111 | one call is one `Upload` step, and writes just the bytes of that step; the time may then be over |
| HttpRequest.HttpRequest.MoveToFile | server/HttpRequest/HttpRequest.cpp:85-105 | the counters advance by what was written and the state follows from them |
| Segmentation.WalkGrows | server/HttpRequest/HttpRequest.cpp:277-305 | more bytes never undo a found end or a refusal, and otherwise the walk resumes exactly |
| Segmentation.ParseGrows | server/HttpRequest/HttpRequest.cpp:113-156 | parsing early, if nothing odd has come, and again after more bytes is parsing once |
| Trouble.ScanMeets | server/HttpRequest/HttpRequest.cpp:113-156 | the first bare line or refused size, read off the bytes, is where a pass of the parser stops, and how |
| Agreement.FeedIsOneParse | server/HttpRequest/HttpRequest.cpp:113-156 | whatever the cut of such a stream, the outcome is one parse of all that arrived |
| Agreement.CutsAgree | server/HttpRequest/HttpRequest.cpp:113-156 | two cuts of one stream without harmful trouble in it end in the same request: states, fields, sizes, body position and unread bytes |
| Agreement.BareLineBreaksAgreement | server/HttpRequest/HttpRequest.cpp:124-128 | a lone LF before the start line makes two cuts disagree, for every refusable next line |
| Agreement.CutsAgreeExactly | server/HttpRequest/HttpRequest.cpp:113-156 | for a request yet to come, all cuts of a stream are parsed alike if and only if no line follows its first bare one, and at most one byte its first refused chunk size |
| Chunked.WalkFindsEnd | server/HttpRequest/HttpRequest.cpp:277-305 | the walk accepts every well-formed body and stops exactly at its end |
| Chunked.WalkRefusesPrefix | server/HttpRequest/HttpRequest.cpp:277-305 | no strict prefix of a well-formed body is accepted, or refused as malformed |
| Chunked.PreScan | server/HttpRequest/HttpRequest.cpp:277-305 | over any number of resumed calls, success comes exactly when the whole body is there, and has consumed exactly it |
| Chunked.NeverStarves | server/HttpRequest/HttpRequest.cpp:59-105 | from the rewind on, the line or the data the decoder is about to take is always there |
| Chunked.UploadStep | server/HttpRequest/HttpRequest.cpp:54-111 | each call conserves written plus owed bytes, and consumes something when its I/O moves something |
| Chunked.ChunkedRoundTrip | server/HttpRequest/HttpRequest.cpp:54-111 | for every pattern of writes the file holds a prefix of the decoded chunks, counted by the total, and all of them once the upload is done |
| Chunked.ChunkedCompletes | server/HttpRequest/HttpRequest.cpp:54-111 | as many moving writes as the body has bytes complete it |
| Chunked.MeasuredRoundTrip | server/HttpRequest/HttpRequest.cpp:84-105 | with a declared length, exactly that many bytes are written, for every pattern of writes |
| Chunked.MeasuredCompletes | server/HttpRequest/HttpRequest.cpp:84-105 | one moving write more than the body has bytes completes it |
| Chunked.SpelledExactly | server/HttpRequest/HttpRequest.cpp:307-320 | a size line spells a number, by quotients and remainders of sixteen and letters of either case, exactly when its value is that number |
| Chunked.SizeIsReadBack | server/HttpRequest/HttpRequest.cpp:307-320 | a size written in hexadecimal is read back as the number it was, up to the largest `long` |
| Chunked.SizeIsRefusedExactly | server/HttpRequest/HttpRequest.cpp:307-320 | a size line is refused if and only if no CR ends the hexadecimal digits it begins with |
| Framing.ChunkedArrives | server/HttpRequest/HttpRequest.cpp:113-156 | a chunked request cut anyhow leaves the parser rewound to the front of its body, with the fields of its head |
| Framing.ChunkedEndToEnd | server/HttpRequest/HttpRequest.cpp:54-156 | from any cut of the input and any pattern of writes to the decoded body: both walks end at the same byte |
| Framing.AnnouncedEndToEnd | server/HttpRequest/HttpRequest.cpp:54-156 | for chunks announced by their lengths in hexadecimal, the file holds them joined, whatever the cut and the writes |
| Framing.MeasuredEndToEnd | server/HttpRequest/HttpRequest.cpp:54-156 | the same for a body of declared length, which is completed too |
| Framing.PartsOfChunked | server/HttpRequest/HttpRequest.cpp:113-156 | every part of a chunked request, from its front, is free of trouble, and all its cuts agree |
| Framing.PartsOfMeasured | server/HttpRequest/HttpRequest.cpp:113-156 | the same for a request of declared length |
| HeadLines.StartIsReadBack | server/HttpRequest/HttpRequest.cpp:172-214 | a start line of any three words is accepted; its first word names the method, each of the five by its own name and none by any other, and the others are read back |
| HeadLines.StartIsAcceptedExactly | server/HttpRequest/HttpRequest.cpp:172-182 | a start line is accepted if and only if it is three words, a space between, and a CR |
| HeadLines.LengthIsReadBack | server/HttpRequest/HttpRequest.cpp:238-240 | a length written in decimal is read back as the number it was, up to the largest `int` |
| HeadLines.CodingIsReadBack | server/HttpRequest/HttpRequest.cpp:259-264 | a chunked coding is recognised, no other is, and nothing else is set |
| HeadLines.ConnectionIsReadBack | server/HttpRequest/HttpRequest.cpp:251-257 | the connection is kept for "keep-alive" and for no other value |
| HeadLines.TypeIsReadBack | server/HttpRequest/HttpRequest.cpp:236-237 | a content type is read back |
| HeadLines.HostIsReadBack | server/HttpRequest/HttpRequest.cpp:241-250 | a host is read back with its port, or with the default port when it has none |
| HeadLines.CookieIsReadBack | server/HttpRequest/HttpRequest.cpp:267-268 | a cookie is read back |
| HeadLines.NothingSaid | server/HttpRequest/HttpRequest.hpp:67-84 | a request whose head says nothing of them has no body, the default port, and a connection that is kept |
| HeadLines.OtherIsIgnored | server/HttpRequest/HttpRequest.cpp:269-274 | a field of any other name counts for the size of the head and for nothing else |
| HeadLines.HeadFitsExactly | server/HttpRequest/HttpRequest.cpp:216-229 | a head with well-formed lines is refused if and only if its start line and fields together have more than 8192 bytes |
| HeadLines.ChunkedIsAcceptable | server/HttpRequest/HttpRequest.cpp:172-275 | requests with a chunked body, of any method and URI up to the size limit, are within what the parser accepts, and the method is the one that is named |
| HeadLines.MeasuredIsAcceptable | server/HttpRequest/HttpRequest.cpp:172-275 | so are those with a body of declared length |
| KeepAlive.ReusedIsFresh | server/HttpRequest/HttpRequest.cpp:14-32 | after `initialize`, every later sequence of calls goes as in a new object, states and written bytes alike, whatever came before |
| ResponseModel.PumpDelivers | server/HttpResponse/HttpResponse.cpp:50-90 | for every pattern of reads and sends the socket has a prefix of the message, and the whole of it exactly when the response is done |
| ResponseModel.FileIsDelivered | server/HttpResponse/HttpResponse.cpp:50-90 | for a header and its file, the message is header and file |
| ResponseModel.NeverShort | server/HttpResponse/HttpResponse.cpp:50-67 | while sending, the store holds at least what is left to the goal |
| ResponseModel.PumpFinishes | server/HttpResponse/HttpResponse.cpp:50-90 | I/O that moves something finishes the response within a stated number of steps |
| HttpResponse.HttpResponse.constructor | server/HttpResponse/HttpResponse.cpp:18-28 | goal and counters of a response made of a header |
| HttpResponse.HttpResponse.WithStorage | server/HttpResponse/HttpResponse.cpp:30-43 | the same when unread bytes of another store are added, which the goal does not count |
| HttpResponse.HttpResponse.SendResponse | server/HttpResponse/HttpResponse.cpp:50-67 | one call is one `Send` step of the pump |
| HttpResponse.HttpResponse.DownloadResponse | server/HttpResponse/HttpResponse.cpp:69-90 | one call is one `Download` step of the pump, and loses nothing of the file |
| CgiResponse.CgiResponse.ParseLine | server/CgiResponse/CgiResponse.cpp:59-77 | which line ends the header, and what a line sets |
| CgiResponse.StatusIsReadBack | server/CgiResponse/CgiResponse.cpp:59-77 | a status line is read back as its code and the first word of its message |
| CgiResponse.ValueIsReadBack | server/CgiResponse/CgiResponse.cpp:59-77 | a type and a cookie are read back, and any other line says nothing |
| CgiResponse.CgiResponse.ParseRequest | server/CgiResponse/CgiResponse.cpp:79-112 | the offset equals the write cursor all through the scan, so the seeks land just after the blank line and the body size is the exact rest; whole lines are parsed whether or not the header is complete; waiting, given or given up is told from the lines, and given up, with the store closed, exactly when no empty or blank line ends the header |
| CgiResponse.ReadAheadShows | server/HttpResponse/HttpResponse.cpp:30-43 | sending the read-ahead and then the file gives the body if and only if the body repeats at that distance |
| CgiResponse.CgiBodyDelivered | server/CgiResponse/CgiResponse.cpp:79-109 | the right number of bytes always follows the header, and they are the body if and only if it repeats at the distance of what the scan had read ahead |
| CgiResponse.ReadAheadIsRepeated | server/CgiResponse/CgiResponse.cpp:79-109 | a plain header and a body of one buffer for which that condition fails: the client does not get the body |
| CgiResponse.ReadAnswer | server/CgiResponse/CgiResponse.cpp:79-109 | of an answer read with full reads, just what comes of the body with the buffers that the header takes is left unread in the store, and the answer is given to its server |
| CgiResponse.Watch | server/CgiResponse/CgiResponse.cpp:79-112 | looked at again and again, an answer is handed over only if one of its blank lines finds the header complete, and with full reads and lines that fit, once decided, if and only if |
| CgiResponse.DeliverAnswer | server/CgiResponse/CgiResponse.cpp:79-109 | for every complete header whose lines fit and every body, read with full reads and sent, the client gets as many bytes as the body has, and the body if and only if the buffers that the header takes have all of the answer or the body repeats at the distance they reach into it |
| ResponseFactory.HeaderIsRead | server/ResponseFactory/ResponseFactory.cpp:436-453 | an independent reader, which splits the status line at spaces and the fields at colons, gets version, code, message, length, type, location, cookies and body back from every header made |
| ResponseFactory.DeclaredIsSent | server/ResponseFactory/ResponseFactory.cpp:436-453 | when sending is done, a client reads all that the header was made with, and the length is the number of bytes after the blank line, which are the intended ones |
| ResponseFactory.CgiDeclaredIsSent | server/ResponseFactory/ResponseFactory.cpp:62-87 | for a CGI answer all of the header is read back, its length is kept too, and the bytes are its body exactly when it repeats at the distance of the read-ahead |
| ResponseFactory.ResponseFactory.MakeHeader | server/ResponseFactory/ResponseFactory.cpp:436-453 | the header of the current fields |
| ResponseFactory.ResponseFactory.Initialize | server/ResponseFactory/ResponseFactory.cpp:455-462 | nothing of an earlier response is left in the fields |
| ResponseFactory.ResponseFactory.MakeResponse | server/ResponseFactory/ResponseFactory.cpp:23-60 | which objection comes first and its error page, or else the answer by method, or a throw when the URI is shorter than the id; a client that is sent it reads the code of the objection, or the location of the configured redirection, or the rest of the URI for a POST to what exists, and the type of a file; kind, state, declared length and descriptor fit together |
| ResponseFactory.ObjectionsAre | server/ResponseFactory/ResponseFactory.cpp:25-40 | what each code objects to, and that an earlier objection goes before a later one |
| ResponseFactory.IndexedExactly | server/ResponseFactory/ResponseFactory.cpp:93-104 | a directory that is not listed stands for its index page, any other path for itself |
| ResponseFactory.ErrorPageExactly | server/ResponseFactory/ResponseFactory.cpp:279-291 | a page that is configured and there goes before the default one |
| ResponseFactory.NameIsListed | server/ResponseFactory/ResponseFactory.cpp:158-186 | a listing has a line for each name up to the end of the directory, but for the directory itself |
| ResponseFactory.ResponseFactory.MakeCgiResponse | server/ResponseFactory/ResponseFactory.cpp:62-87 | the response to a finished CGI answer, or the error it amounts to |
| ResponseFactory.ResponseFactory.GetResponse | server/ResponseFactory/ResponseFactory.cpp:89-129 | listing, 404, 413 or the file, by what is at the indexed path |
| ResponseFactory.ResponseFactory.HeadResponse | server/ResponseFactory/ResponseFactory.cpp:131-156 | listing, 404 or a bare header |
| ResponseFactory.ResponseFactory.AutoIndexResponse | server/ResponseFactory/ResponseFactory.cpp:158-186 | the listing rides after the header and is counted in the declared length |
| ResponseFactory.ResponseFactory.PostResponse | server/ResponseFactory/ResponseFactory.cpp:188-214 | 301 for what exists, 409 and an unchanged tree for a conflict, else the file is made |
| ResponseFactory.ResponseFactory.PutResponse | server/ResponseFactory/ResponseFactory.cpp:216-241 | an existing file is emptied, a new one made, a conflict answered with an unchanged tree |
| ResponseFactory.ResponseFactory.DeleteResponse | server/ResponseFactory/ResponseFactory.cpp:243-258 | 404, or just that file is gone |
| ResponseFactory.ResponseFactory.ErrorResponse | server/ResponseFactory/ResponseFactory.cpp:260-309 | the configured page, else the default one, else a throw; a HEAD gets neither page nor descriptor |
| ResponseFactory.ResponseFactory.RedirResponse | server/ResponseFactory/ResponseFactory.cpp:311-336 | kind and location of a redirection |
| FileManager.FileManager.constructor | server/FileManager/FileManager.cpp:12-22 | the path is the root joined with the rest of the URI, and what is there is known |
| FileManager.JoinedBySlash | server/FileManager/FileManager.cpp:85-92 | each side loses at most one slash at the joint, and one stands between |
| FileManager.LocatedBelow | server/FileManager/FileManager.cpp:12-22 | the id of the location is cut off the URI, and the rest is put under the root with one slash between |
| FileManager.FileManager.IsDirExist | server/FileManager/FileManager.cpp:109-122 | true for a directory; a file in its place is a conflict |
| FileManager.FileManager.IsConflict | server/FileManager/FileManager.cpp:131-150 | on a closed tree and a path without empty segments, true exactly when a proper ancestor is a file, and then nothing changes; else all ancestors are directories and only missing ones were added |
| FileManager.AncestorsExist | server/FileManager/FileManager.cpp:135-147 | under an existing node of a closed tree every ancestor is a directory, which makes the loop all or nothing |
| Kernel.Descriptors.RegisterToClose | server/FileManager/FileManager.cpp:124-129 | registering twice is registering once, and -1 is ignored |
| Locations.Resolver.FindLocationInfo | server/VirtualServer/VirtualServer.cpp:323-338 | the longest configured path got by cutting the URI at slashes, else "/", with an id that is a prefix of the URI, after any number of requests; or that the loop never ends |
| Locations.LoopEndsExactly | server/VirtualServer/VirtualServer.cpp:323-338 | the loop ends exactly for URIs that are empty, begin with a slash, or have a configured ancestor |
| Config.Split | server/Config/Config.cpp:207-218 | joining the pieces gives the string back, and no piece holds the delimiter |
| Config.ParseLocation | server/Config/Config.cpp:102-127 | the location is what its lines say, and keeps the id it was opened with |
| Config.ParseServer | server/Config/Config.cpp:53-100 | the server is what its lines say; every location is stored under its own id, and there is one; the port is in range, and the block goes on to the next one or the end |
| Config.BlockIsRead | server/Config/Config.cpp:53-127 | a block is read back as the port, name, root and locations it was written with, whatever the other settings are; a location has the root of its server and its id, or one of its own |
| Config.Parse | server/Config/Config.cpp:37-51 | the servers are those of the blocks, refused when two share a port; there is one for each line that begins a block, or one for an empty file |
| Config.FileIsRead | server/Config/Config.cpp:37-51 | a file of blocks is read back as the servers that they were written from, in order |
| Timeout.IntervalIsClose | server/EventHandler/EventHandler.cpp:42-43 | the computed interval is within a millisecond of the true one |
| Timeout.StaleIsHalfAMinute | server/EventHandler/EventHandler.cpp:36-46 | thirty seconds, to a millisecond, make a connection idle |
| Timeout.RecentIsNotStale | server/EventHandler/EventHandler.cpp:36-54 | what was stamped in time for a batch is not idle to a sweep in that batch |
| EventSafety.ServeIsProper | server/VirtualServer/VirtualServer.cpp:26-55 | whatever is served, and however the environment answers, registrations move with the type of the event, and descriptors stay apart |
| EventSafety.ServeFindsExactly | server/VirtualServer/VirtualServer.cpp:57-321 | each change a step queues finds the registration it is about, if and only if the step is not a failed read of a download; and what fails then has no event to it |
| EventSafety.FactoryIsAllowed | server/VirtualServer/VirtualServer.cpp:243-305 | what the factory promises of the response to a request, and of the descriptors it opened, is all that the step is assumed to be given |
| EventSafety.ErrorReplyIsAllowed | server/VirtualServer/VirtualServer.cpp:123-217 | the same for the error response made while a body is written or flushed |
| EventSafety.CgiReplyIsAllowed | server/VirtualServer/VirtualServer.cpp:307-321 | the same for the response to a CGI answer |
| EventSafety.ThrowsExactly | server/VirtualServer/VirtualServer.cpp:219-241 | whether and how a step is cut short, told from the event before it, the calls that are to fail, and whether the file that is flushed to is there |
| EventSafety.UploadForetold | server/HttpRequest/HttpRequest.cpp:54-111 | whether a call of the decoder refuses, finishes or breaks is told from the request before it |
| EventSafety.AbortsExactly | server/VirtualServer/VirtualServer.cpp:219-241 | the throw that nothing catches comes exactly for a GET sent to a CGI program that was refused before or stands at a size line that is no number, unless its time is over or making the error response fails |
| EventSafety.LeadsExactly | server/VirtualServer/VirtualServer.cpp:57-321 | where a step leads is told from the event before it: removed, or which type, which response and which source the event then has |
| EventSafety.FlushAnswersExactly | server/VirtualServer/VirtualServer.cpp:146-157 | a body flushed to its end is answered with 413 if its file is larger than the limit, and otherwise as it was going to be |
| EventSafety.LeftOpenExactly | server/VirtualServer/VirtualServer.cpp:57-321 | a step leaves a descriptor open for ever exactly when it refuses a body, whose file it is, or replaces or drops an error page whose turn had not come |
| EventRuns.EveryActionKeepsInv | server/EventHandler/EventHandler.cpp:126-153 | polling, sweeping, accepting, routing and serving each keep the invariant, CGI answers that are given up included |
| EventRuns.RegistrationsOverRuns | server/EventHandler/EventHandler.cpp:56-88 | over every run, each live connection has exactly one enabled registration, fixed by its type; no other is owned by a removed event than those of the CGI answers that were given up, one for each, which stay |
| EventRuns.CouplingOverRuns | server/VirtualServer/VirtualServer.cpp:123-303 | over every run, writable means sending from the store, download means a source file that is open, flush means POST or PUT, and a response that takes a body is not sent before the body is over or refused |
| EventRuns.ChangesFindOverRuns | server/EventHandler/EventHandler.cpp:126-131 | over every run, each pending change finds its registration if and only if no read of a download has failed |
| EventRuns.NullExactly | server/EventHandler/EventHandler.cpp:23-28 | what a poll returns has an entry without an event if and only if a pending change fails |
| EventRuns.FlushesOverRuns | server/VirtualServer/VirtualServer.cpp:123-161 | over every run, a step that ends a flush is thrown at by unlink if and only if another event has unlinked the file since it was last opened |
| EventRuns.BatchNamesOnce | server/EventHandler/EventHandler.cpp:126-153 | a batch names no connection twice, and only live ones |
| EventRuns.SweepSparesBatch | server/EventHandler/EventHandler.cpp:36-54 | the sweep never takes an event of the current batch, nor one with changes pending |
| EventRuns.DeferredCloseIsSafe | server/FileManager/FileManager.cpp:59-67 | a descriptor put aside stays open, belongs to no event, and has nothing registered once the pending changes are in |
| EventRuns.NewOwnersAreUntouched | server/FileManager/FileManager.cpp:124-129 | no pending change is about a descriptor that may be handed out |
| EventRuns.RemovalIsCleanExactly | server/EventHandler/EventHandler.cpp:70-88 | removing an event leaves no registration of it behind if and only if it is not waiting for a CGI answer or a flush |
| EventRuns.RouteLosesExactly | server/EventHandler/EventHandler.cpp:90-124 | routing one entry leaves a registration behind, that of the answer, if and only if it removes an event for a CGI answer whose lines have run out |
| EventRuns.RouteLeadsExactly | server/EventHandler/EventHandler.cpp:90-102 | while its request is coming, a connection is removed if and only if its socket is at its end, nothing is received, or its time is over at an unfilled buffer; else its request is handed on if and only if it is complete |
| EventRuns.BatchStep | server/EventHandler/EventHandler.cpp:104-153 | routing one entry leaves the rest of the batch live, loses no event, and hands out only servable ones, each once |
| EventRuns.PollClosesSafely | server/EventHandler/EventHandler.cpp:126-140 | the next poll closes all that was put aside, once, and no live registration goes with it |
| EventHandler.EventHandler.constructor | server/Router/Router.cpp:42-69 | one pending registration for each listening socket, and nothing else |
| EventHandler.EventHandler.RemoveConnection | server/EventHandler/EventHandler.cpp:70-88 | what removal queues, puts aside and closes, by type |
| EventHandler.EventHandler.AddConnection | server/EventHandler/EventHandler.cpp:56-68 | a new event with its three changes, on a descriptor that was not open; or a throw when the accept fails |
| EventHandler.EventHandler.CheckConnectionTimeout | server/EventHandler/EventHandler.cpp:36-54 | afterwards no idle connection waits for a request, every other event is there unchanged, and the invariant holds |
| EventHandler.EventHandler.RouteRecvEvent | server/EventHandler/EventHandler.cpp:90-102 | removed on a receive error or when the lines of a CGI answer run out, handed once parsed to the server that `FindServerId` finds for it, kept otherwise |
| EventHandler.EventHandler.RouteEvent | server/EventHandler/EventHandler.cpp:104-124 | what becomes of one entry of the batch |
| EventHandler.EventHandler.RouteListener | server/EventHandler/EventHandler.cpp:104-109 | a sweep and an accept leave every event of the batch as it was, whether or not the accept fails |
| EventHandler.EventHandler.RouteEvents | server/EventHandler/EventHandler.cpp:126-153 | the server meets an entry without an event exactly when a pending change fails, and is thrown at exactly when an accept of the batch fails; the invariant is kept; every event handed out is live, complete and handed out once, to the server that hosts it by the port and name of its head; and every event of the batch that is not settled is handed out |
| VirtualServer.VirtualServer.ProcessHttpRequestReadable | server/VirtualServer/VirtualServer.cpp:243-305 | the transition by method and kind of response |
| VirtualServer.VirtualServer.UploadFile | server/VirtualServer/VirtualServer.cpp:163-217 | the transition by the state of the request after one call of the decoder |
| VirtualServer.VirtualServer.FlushBuffer | server/VirtualServer/VirtualServer.cpp:123-161 | the same while a body is flushed |
| VirtualServer.VirtualServer.RedirectUploadError | server/VirtualServer/VirtualServer.cpp:219-241 | where a refused or flushed body leads, and when it throws |
| VirtualServer.VirtualServer.DownloadFile | server/VirtualServer/VirtualServer.cpp:85-121 | the transition by the state of the response after one read |
| VirtualServer.VirtualServer.SendResponse | server/VirtualServer/VirtualServer.cpp:57-83 | closed, renewed for the next request, or still sending |
| VirtualServer.VirtualServer.CgiResponseToHttpResponse | server/VirtualServer/VirtualServer.cpp:307-321 | the download of a CGI body keeps the registration it has; an empty body goes straight to the client |
| VirtualServer.VirtualServer.ProcessEvent | server/VirtualServer/VirtualServer.cpp:26-55 | each event is served as its type says, thrown at or not, and the invariant is kept |
| VirtualServer.VirtualServer.Start | server/VirtualServer/VirtualServer.cpp:18-24 | a turn of one server, whichever have had theirs before it, serves all it was handed, keeps the invariant, and leaves what was handed to the others servable |
| Router.Router.constructor | server/Router/Router.cpp:14-18 | each virtual server is numbered by its place among those that requests are given to |
| Servers.ServerList.FindServerId | server/Router/Router.cpp:71-85 | the server that a port and a name stand for |
| Servers.ServerForExactly | server/Router/Router.cpp:71-85 | that is the first server with port and name, else the first with the port, else the first |
| Router.Router.Turn | server/Router/Router.cpp:28-33 | after a whole turn of the loop, every server served, nothing is left to do, the invariant holds, every event is with the server that hosts it, and the next turn can begin; an entry without an event is met exactly when a change of the turn before fails |
| Environment.EveryEventCanBeServed | server/VirtualServer/VirtualServer.cpp:26-55 | for every event that is handed out in any state there is a step the environment may take, and one that is not cut short unless it flushes to a file that is gone |
| Environment.EveryTurnCanBegin | server/Router/Router.cpp:28-33 | in any state, whichever connection is to fire, there is all that a turn of the loop is assumed to be given |
| Incidents.UnendedAnswerDangles | server/EventHandler/EventHandler.cpp:70-102 | every answer none of whose blank lines finds the header complete is given up, if not left alone at the end of its file; then a run, from a client's bytes on, comes to a removed event with a registration |
| Incidents.StatusAloneIsUnended | server/CgiResponse/CgiResponse.cpp:59-112 | a status line alone is such an answer |
| Incidents.IncompleteIsUnended | server/CgiResponse/CgiResponse.cpp:59-112 | a status, a blank line and anything without a line end is another, for which the first look decides nothing |
| Incidents.MalformedGetAborts | server/VirtualServer/VirtualServer.cpp:243-305 | a run, from a client's bytes on, that ends in the throw, although no call fails |
| Incidents.FailedReadMeetsNull | server/VirtualServer/VirtualServer.cpp:85-105 | a run, from a client's bytes on, after which whatever the next poll returns has an entry without an event |
| Incidents.OverlappingFlushesFail | server/VirtualServer/VirtualServer.cpp:123-161 | a run, from two clients' bytes on, that ends in a throw by unlink, although no other call fails |
| Exchange.EveryStepIsNearer | server/VirtualServer/VirtualServer.cpp:57-305 | every served step finishes the exchange or comes strictly nearer in the same phase or a later one, and conserves the body still to be written |
| Exchange.ExchangeFinishes | server/VirtualServer/VirtualServer.cpp:57-305 | the response is sent within as many steps as there are unread bytes, plus twice the longest response, plus three |
| Exchange.MadeIsReady | server/ResponseFactory/ResponseFactory.cpp:89-336 | what the factory makes can always be sent to its end |
| Delivery.ChunkedIsAnswered | server/VirtualServer/VirtualServer.cpp:57-305 | a chunked request in any pieces is answered within the bound, the client's bytes tell their own length truly, and a file made of the body holds just the body; with no other flush under way, the client is sent the first response made, or 413 if that was to follow a flush and the body is larger than the limit |
| Delivery.MeasuredIsAnswered | server/VirtualServer/VirtualServer.cpp:57-305 | the same for a body of declared length, the empty one included |
| Delivery.ExchangeTells | server/HttpResponse/HttpResponse.cpp:50-90 | from any point of an exchange, the client is sent just the last of the responses made on the way, whole, and it tells its length |
| Delivery.AnswerIsChosen | server/VirtualServer/VirtualServer.cpp:123-161 | that is the first response made, unless a flushed body is larger than the limit, and then one that a client reads as 413 |
| Delivery.DueIsWritten | server/HttpRequest/HttpRequest.cpp:54-111 | by the end of the exchange the file was given exactly what was due of the body |
| Delivery.WaitsAgain | server/VirtualServer/VirtualServer.cpp:69-83 | a connection kept alive waits as a new one does, so the results hold of request after request; it is closed if the client asked for that or the request was bad |

## Left out

- ParseChunkSize: `strtol` also takes leading space, a sign and "0x", which the model
  refuses; and a size within two of the largest `long`, where adding 2 overflows.
- CutsAgreeExactly: the bytes held are at most the largest `int`, because counts are
  narrowed to `int`.
- GetResponse: opening a directory to send it counts as a throw, as does any other
  failing call on a file that is there.
- DeleteResponse: what is removed inside a directory that is deleted is not modelled.
- IsConflict: says no more than that nothing existing is lost when the path has an
  empty segment or no slash at all, or when the tree lacks a parent; `mkdir` is taken
  to succeed where its parent is a directory.
- Parse: reading the file, the values of the settings other than root, port, name and
  location (they are a parameter that may refuse them), and printing the result. A
  port without a value is read as 0 and refused.
- RouteEvents: events are values in a map under an identity, not objects with
  addresses; so the time written to a removed event at the end of `_routeEvent` is not
  modelled, nor is the second stamp of an event that stays. The interval is not
  narrowed to `int`. What was left behind by an answer that was given up is taken not to
  be in the batch, as its event is gone.
- ProcessEvent: requests and responses are the values the classes `HttpRequest` and
  `HttpResponse` are proved to compute, and files stay as they are while they are sent.
  Failing calls are those of opening and unlinking temporary files and of making
  responses; closing and changing the mode of an open descriptor do not fail.
- RegistrationsOverRuns: runs in which a step throws, or in which a registration that was
  left behind fires; a run is not followed past a change that fails, as the server is
  not either; EV_EOF is reported on sockets only.
- Turn: no more is said of a turn in which a step throws than that it did; starting
  over after a caught exception is not modelled.
- ParseRequest: whether a request's time is over when `_checkTimeOut` looks is a choice
  of the environment, as it is for UploadRequest; `Exchange` and `Delivery` assume that
  it is not, and that no other flush ends in between; that the file then holds just what
  this one wrote is a hypothesis (`AloneWithin`) where the size matters.
- HttpRequest: the fields set by the head are one record; `secretHeaderForTest`,
  cookies and the host are carried but mean nothing further.
- Descriptors: which of them a step leaves open for ever is stated (`LeftOpenExactly`), as
  are those of CGI answers that were given up; that of a file too large to be sent, which
  the factory leaves open, is not followed.
- CGI failures: a failing fork, a program that cannot be started, and what becomes of
  the error response made from a CGI answer; environment and arguments of the program.
- Pipelined requests: what follows a body is cleared by `initialize`.
- Sockets, signals, logging, the test client, the scripts and the HTML pages.
- A byte is a `char`; nothing depends on how many values it has.
