# A verified model of the mohican web server

The project models the parts of mohican whose correctness is not evident from one function, and proves what
they promise. Every routine that the source writes with loops over mutable state is a Dafny method that is
proved equal to a function on values; the theorems are about these functions.

| part | files |
|---|---|
| strings, `%d`, `stoi`, `to_string` | `Text` |
| configuration: lexer, table-driven parser, sub-parsers, setters | `ConfigLexer`, `ConfigParser`, `ParseFunctions`, `ServerSettings`, `MainServerSettings`, `UpstreamSettings` |
| configuration: theorems | `ConfigGrammar`, `ConfigInvariants`, `ConfigPrinter`, `ConfigLexing`, `ConfigBlocks`, `ConfigUpstreams`, `ConfigRuns`, `ConfigRoundTrip`, `ConfigMeaning`, `ConfigExact` |
| routing of URLs, weighted choice | `Routing`, `Balancing` |
| HTTP messages and their way over the wire | `HttpBase`, `HttpRequest`, `HttpResponse`, `Wire`, `RequestWire`, `ResponseWire`, `HttpTexts`, `HeaderNames`, `WirePath` |
| client connections, body relay, event loop | `Connection`, `ClientConnection`, `WorkerProcess` |
| connections: theorems | `ConnectionSafety`, `ConnectionDelivery`, `ConnectionReads`, `ConnectionAsIs`, `ConnectionPages`, `ConnectionForwards`, `ConnectionTimeouts`, `ConnectionJourneys`, `BodyRelay`, `RelayRuns`, `BodyAlong`, `BodyOverrun` |
| masters, reload and stop | `MohicanServer`, `Reload`, `ReloadInvariant`, `ReloadSteps`, `ReloadSafety`, `ReloadProgress`, `ReloadBadConfig`, `ReloadWaits`, `ReloadStopRuns`, `ReloadStops`, `ReloadElderStops` |

`dafny verify dfyconfig.toml` checks everything.

## How things are modelled

**Configuration.** The text of the file is a parameter. `ParseConfig` and its sub-parsers move one cursor over
it; `ParseText` is the function they compute. A parse ends in one of four ways: `Finished` (the closing brace),
`Invalid` (the exception for an invalid file), `Stopped` (a setter threw, and the loop was left by `break`
without an error) and `Threw` (an exception of the upstreams block leaves the parser). Texts end in white
space, or are empty: without that the loops of `get_url` and of the keyword skip run past the end. Regular
expressions are an uninterpreted match predicate that may also reject a pattern. Pointers to upstreams are the
keys of the upstream map.

**HTTP.** `HttpRequest` and `HttpResponse` are classes with the fields of the source; an exception of a parser
is a `Fault` beside the state it leaves. `std::string(s, pos, len)` with a length below zero runs to the end,
as the unsigned conversion makes it. The loops of `get_request` and `get_proxy_header` are `Feed`, generic in
the message. The iteration order of a hash map is a parameter that enumerates its keys.

**Connections.** `Process` is one call of `connection_processing`: the `if` blocks of the source in their order,
each falling through to the next or returning a status. What the world answers during a call (bytes read, bytes
accepted, timeouts, the outcome of `connect` and of the request handler) is an `Events` value that is arbitrary. The
header name by which the length of a body is looked up is a field of `World`: "Content-Length" for the code as it is
(`ConnectionAsIs`), and anything else for what is said of relaying bodies, which a lookup that succeeds would make
possible. Two uninitialised variables of the source, the success flag after an exception and the write
result when nothing was written, are part of it. The record `History` is not in the source; it notes what the
sockets have accepted and which stages were entered, for the theorems.

**Masters.** A step is one statement of one process: of the old master, of the intermediate child, of the new
master; or the end of a worker, or a command. Signals set flags in the memory of the receiver, a fork copies
the memory of the parent, and all interleavings are allowed. Handlers are installed without SA_RESTART, so a signal ends
a blocked `waitpid`, whichever worker it is about. `MohicanServer` is the same master as an object,
for the routines that are loops.
Assumed: one command at a time, no stop from outside during a reload, forks succeed, the configuration file
parses, new pids are fresh, and a worker ends only after it has been told to (any other SIGCHLD would set the
same flag the new master waits on).

## Where the code falls short of its intent

Each of these is stated as a theorem about the code as it is.

Masters:

- A reload of a configuration without a positive worker count makes the new master run `server_stop` over the
  list it inherited: it tells the old master's workers to stop. Service is without a gap in all runs exactly if
  the count is positive (`NoServiceGapExactly`).
- A stopping master waits for its workers in turn, but any SIGCHLD ends the wait it is in: the end of another worker, or,
  in a reload, the exit of the intermediate child. So workers may outlive it. After a stop from outside all have ended in
  every run exactly if there was only one (`LeftBehind`, `StopAwaitsAllExactly`). Of the old master of a reload, as long as
  none of its workers has been told to stop, all will have ended in every run exactly if there is only one and the
  intermediate child has exited; every reload of every settled system has a run that leaves a worker behind
  (`LeftBehindInReload`, `ReloadAwaitsAllExactly`). In a run in which no wait is ended by a signal from elsewhere, every
  worker has ended whose master has exited (`OrderlyMastersWait`, `StartedMastersWait`).

Connections:

- A connection gives up when a read finds nothing before the header is complete: a request is read exactly if no
  call before the last one ends in a failed read or a timeout (`RequestReadExactly`, `BrokenRead`), and likewise a
  response (`ResponseReadExactly`).
- Both header loops read on behind the blank line: what comes along of a body is read as headers (`RestIsRead` in
  `RequestWire` and in `ResponseWire`). A line of it throws exactly if it has no colon and, for a request, does not look
  like an end, for a response, does not begin with a carriage return (`BodyLineThrowsExactly` in both); all of it throws
  exactly if such a line comes before one that closes the headers (`RestThrowsExactly` in both).
- After an exception of a parser a flag is read that was never set. A request at which reading has thrown is stuck if it
  is false, and served like one that has been read if it is true (`ThrownAtIsBad`, `RequestIsServed`).
- The length of a body is looked up under a mixed-case name, while parsed names are lower-case, and `stoul` of the
  empty string throws out of `connection_processing`. So no body and no response is ever relayed (`NothingIsRelayed`),
  and the exception ends the worker with all its connections (`ThrownEndsWorker`).

The following are about a lookup that succeeds.

- A socket is watched that the stage does not use in exactly two cases: the upstream's while a body is sent to the
  client, and the client's behind a fill from the upstream that was not complete (`WatchedSideExactly`,
  `RegisteredExactly`, `WrongSideRuns`).
- The bytes of a body that come along with its header are missing in `buffer_read_count`: with the count at 0 the relay of
  the rest can be finished exactly if no byte has come along, otherwise the connection waits for bytes that never come
  (`ThroughExactly`, `ResponseNeverEnds`, `RequestNeverThrough`).
- `upstream_buffer` is not cleared where `get_body_ind` is zeroed, so every chunk sends the start of the buffer
  again: a relayed body is right exactly if it repeats its first 1024 bytes (`BodyArrivesExactly`).
- When the count has reached the length before the first byte, behind an earlier body at least as long or with a
  length of 0, an empty fill is taken for complete, and `send_body`, which writes before it compares its index, runs
  past the end: bytes are written that are none of this body, and the relay never ends. Chunks stay within bounds in all
  schedules, and no run overruns, exactly if the count is below the length (`ChunksAreBoundedExactly`,
  `OverrunsExactly`, `OverrunRun`, `LostForever`, `EmptyBodyOverruns`).
- `buffer_read_count` is not reset between the body of the request and that of the response: every finished relay
  passes the whole body on exactly if the count starts from 0 (and the body repeats); with a count of r carried over
  a relay can finish r bytes short (`WholeBodyExactly`, `CutShort`, `CutShortRun`).
- A body that is complete is given up if the read behind its last byte fails (`FillSucceedsExactly`).
- A relayed request body stays in the buffer (`LeftInBuffer`), and the response header is read behind it: that throws
  exactly if the two do not scan as a status line (`ResponseFromBuffer`, `LeftoverThrows`).
- A connection that ends by an error or a timeout while its upstream is watched leaves that socket in the epoll
  set (`EndLeavesNothingExactly`, `LeftInSet`).

Elsewhere:

- `send_header` and `send_file` do not look at how much of the last two bytes, or of a chunk, was accepted: the
  client has got the whole response exactly if every such write took all it was given (`StaticResponse`, `EmitsImage`).
- A failed write of a chunk of a file is no error: the variable that is compared with -1 holds the outcome of a
  comparison. The call ends, and the next one goes on behind that chunk (`WaitsOrGivesUp`, `ChunksExactly`).
- An address that breaks off behind its third dot makes `stoi` throw (`ThrowsExactly`, `BrokenOffThrows`).
- The weighted choice gives index 0 one draw that the last index loses (`ChosenByWeight`).
- Of a reason phrase only the last word is kept, with a carriage return (`ResponseCompletes`).

## Model

| member | source | states |
|---|---|---|
| ConfigLexer.LexemAdvances | project/config/src/parse_functions.cpp:242-295 | every lexeme but the error consumes text and ends at most at the end of the text, for each of the three keyword tables |
| ConfigLexer.LexerKeepsBlocksApart | project/config/src/parse_functions.cpp:242-295 | the keyword table in force decides which blocks can open: no server or upstreams block inside a server block, no location outside one, none of them in a location |
| ConfigLexer.NextLexem | project/config/src/parse_functions.cpp:242-295 | the loops of `get_lexem` find the lexeme and the new cursor that the lexer function gives |
| ParseFunctions.GetPrefixStatus | project/config/src/parse_functions.cpp:12-28 | which of the four match classes the sign in front of a URL names, and where the cursor is behind it |
| ParseFunctions.GetUrl | project/config/src/parse_functions.cpp:42-53 | fails exactly off a slash; otherwise the URL is the text up to the next white space, which is found before the end of the text |
| ParseFunctions.SetUpstreamSettings | project/config/src/parse_functions.cpp:126-147 | value and cursor of one `weight=` or `port=` setting, -1 if absent, and the case in which `stoi` throws |
| ParseFunctions.ParseUpstreams | project/config/src/parse_functions.cpp:55-124 | terminates, stays in the text, and leaves exactly the upstreams added before the end, the error or the exception |
| ParseFunctions.ParseLocation | project/config/src/parse_functions.cpp:149-239 | terminates, stays in the text, and adds the location to its class or leaves the settings untouched |
| ParseFunctions.TakeTurn | project/config/src/parse_functions.cpp:357-426 | one turn of the main loop changes settings, state, flag, property number and cursor as the transition table says |
| ParseFunctions.ParseConfig | project/config/src/parse_functions.cpp:320-430 | the whole parser terminates on every text that is empty or ends in white space, and ends in the settings and the outcome of `ParseText` |
| ConfigGrammar.AcceptsExactlyTheGrammar | project/config/src/parse_functions.cpp:329-426 | the table with its flag accepts a token sequence if and only if a tree of the grammar derives it |
| ConfigGrammar.DepthIsDetermined | project/config/src/parse_functions.cpp:329-426 | after any tokens state and flag determine the brace depth; it is 0 at the end, and the flag says whether a server block is open |
| ConfigGrammar.TurnTakesToken | project/config/src/parse_functions.cpp:357-426 | a turn of the parser on text is a turn of the table on its token |
| ConfigGrammar.ParsedExactlyTheGrammar | project/config/src/parse_functions.cpp:320-430 | a parse that no exception cuts short succeeds if and only if the grammar derives the tokens of the text |
| ConfigBlocks.PrintedLocation | project/config/src/parse_functions.cpp:149-239 | a printed location block is read as the setters folded over its pairs, or fails without a trace when one fails or no root is set |
| ConfigMeaning.PrintedLocationMeans | project/config/src/parse_functions.cpp:149-239 | a printed location block appends one location with the printed URL, case-sensitive without a star, the root of the last pair that gives one and otherwise the server's, the last switches and the upstreams in order; it fails, changing nothing, if and only if a switch or an upstream is not accepted or there is no root |
| ConfigUpstreams.PrintedUpstreams | project/config/src/parse_functions.cpp:55-147 | a printed upstreams block is read as its lines in order, absent settings getting their defaults |
| ConfigMeaning.PrintedUpstreamsMean | project/config/src/parse_functions.cpp:55-147 | after a printed upstreams block each address has the weight and port of its last line, 1 and 80 where absent, and is an IP address if and only if it is four octets; other addresses keep their entry; the block is thrown out of at the first line with a number beyond an int or an address that breaks off |
| ConfigMeaning.UnopenedUpstreams | project/config/src/parse_functions.cpp:55-124 | an upstreams block without its brace, or that the text ends in, is an error and adds nothing |
| ConfigMeaning.StrangeEntry | project/config/src/parse_functions.cpp:55-124 | so is an entry with anything but its two settings in front of the semicolon |
| ConfigExact.EntryIsRead | project/config/src/parse_functions.cpp:70-93 | any text of the form of an entry (address, blanks, the two settings each left out, in full, or as a bare name that counts as left out, semicolon, white space) is read as that address with the numbers written, 1 and 80 where none is |
| ConfigExact.EntryIsFound | project/config/src/parse_functions.cpp:126-147 | the converse: whatever is read as an entry has that form |
| ConfigExact.BodyIsRead | project/config/src/parse_functions.cpp:187-211 | lexemes that alternate empty lines and key-value pairs up to a closing brace make the location that the setters make of them in order, and an error if a setter refuses one |
| ConfigExact.BodyIsDerived | project/config/src/parse_functions.cpp:187-211 | the converse: a body that is read to its end has that form and leaves that location |
| ConfigUpstreams.SettingReads | project/config/src/parse_functions.cpp:126-147 | a setting is read with any blanks around its equals sign |
| ConfigRoundTrip.PrintedConfigIsParsed | project/config/src/parse_functions.cpp:149-430 | printing any list of items, nested blocks and indentation included, and parsing it gives exactly the settings of the setters folded over the items in order, and the outcome of the first item that fails |
| ConfigInvariants.ParsedLocationsOk | project/config/src/parse_functions.cpp:149-239 | every parse, successful or not, leaves only locations for a URL that begins with a slash, with a root that was set, that are proxies exactly when they have upstreams, and that name declared upstreams |
| ConfigInvariants.ProxyHasUpstream | project/config/src/server_settings.cpp:129-222 | a URL routed to a proxying location finds a first upstream there, which is configured |
| ServerSettings.ServerSettings.SetProperty | project/config/src/server_settings.cpp:36-66 | the new settings, and the exception of `stoi` without a change |
| ServerSettings.ServerSettings.SetLocationProperty | project/config/src/server_settings.cpp:137-176 | the new location; fails exactly on a log switch that is neither on nor off and on an unknown upstream |
| ServerSettings.UnknownSetsNothing | project/config/src/server_settings.cpp:36-176 | a number that names no property sets nothing |
| ServerSettings.ServerSettings.AddUpstream | project/config/src/server_settings.cpp:224-226 | the upstream is stored under its address, unless reading the address throws |
| ServerSettings.ServerSettings.AddLocation | project/config/src/server_settings.cpp:228-242 | the location is appended to its class and the other classes stay |
| ServerSettings.ServerSettings.GetLocation | project/config/src/server_settings.cpp:179-222 | the four scanning loops give the answer of the routing function |
| ServerSettings.GetNumber | project/config/src/server_settings.cpp:18-34 | the lookup loop gives the index of the name without its closing characters, -1 if there is none |
| MainServerSettings.MainServerSettings.constructor | project/config/src/main_server_settings.cpp:15-18 | the defaults a parse starts from |
| MainServerSettings.MainServerSettings.SetProperty | project/config/src/main_server_settings.cpp:38-61 | main-level logs are written to the server block too, through its own setter |
| MainServerSettings.UnknownSetsNothing | project/config/src/main_server_settings.cpp:38-61 | a number that names no property of the main block sets nothing |
| MainServerSettings.MainServerSettings.AddServer | project/config/src/main_server_settings.cpp:63-71 | logs set before are handed on to the server block, nothing else changes |
| Routing.RouteIsFirstStop | project/config/src/server_settings.cpp:179-222 | the answer is the first match in the concatenation of exact, preferential, regular-expression and prefix locations, each in configuration order |
| Routing.NotFoundExactly | project/config/src/server_settings.cpp:179-222 | nothing is found if and only if no configured location matches |
| Routing.AppendedLocation | project/config/src/server_settings.cpp:179-242 | appending a location changes the answer only for URLs that it matches and that nothing in its class or an earlier one had matched |
| Routing.FoundExactly | project/config/src/server_settings.cpp:179-222 | the answer is location i of a class if and only if it is the first of its class that is the URL (exact), begins it (preferential, prefix) or matches it (regular expression), in the URL's own or, unless it is case-sensitive, lower case, and every location asked before it is passed over |
| Routing.NothingExactly | project/config/src/server_settings.cpp:179-222 | nothing is found if and only if every location is passed over, told from the URLs alone |
| Routing.BadRegexExactly | project/config/src/server_settings.cpp:179-222 | routing throws if and only if the scan comes to a pattern that cannot be built before any location answers |
| UpstreamSettings.UpstreamSettings.SetUpstreamAddress | project/config/src/upstream_settings.cpp:21-47 | the index loops set `is_ip` to the verdict of the recogniser, and throw when it throws |
| UpstreamSettings.UpstreamSettings.IsSubIpNum | project/config/src/upstream_settings.cpp:49-71 | the length of a leading octet with its dot, -1, or the exception of `stoi` |
| UpstreamSettings.IsIpExactly | project/config/src/upstream_settings.cpp:21-71 | an address is an IP address if and only if it is four dot-separated digit runs of at most 255 each |
| UpstreamSettings.ThrowsExactly | project/config/src/upstream_settings.cpp:21-71 | reading an address throws if and only if behind some valid octets a digit run exceeds an int, or the fourth octet is empty |
| UpstreamSettings.RenderedQuadIsIp | project/config/src/upstream_settings.cpp:21-71 | the decimal rendering of any four octets (section 3.2.2 of RFC 3986) is recognised |
| UpstreamSettings.BrokenOffThrows | project/config/src/upstream_settings.cpp:36-46 | the input that shows the exception on an address that breaks off |
| Balancing.StartBalancing | balancing_to_add.cpp:8-30 | in bounds and terminating for any weights with a positive sum; for positive weights the least index whose prefix sum reaches the draw |
| Balancing.ChosenByWeight | balancing_to_add.cpp:8-30 | over all draws a middle index is chosen exactly as often as its weight says, index 0 once, the last index once less than its weight |
| HttpRequest.HttpRequest.AddLine | project/http/src/http_request.cpp:80-94 | the new state and the exception for every line, the three-character blank line included |
| HttpRequest.HttpRequest.AddFirstLine | project/http/src/http_request.cpp:96-128 | method, URL and version, or the exception with what has been assigned by then |
| HttpRequest.HttpRequest.AddHeader | project/http/src/http_request.cpp:130-155 | the header stored in lower case, the end of the headers, or the exception |
| HttpRequest.HttpRequest.Init | project/http/src/http_request.cpp:24-78 | the parsing constructor terminates in bounds and gives the message that the one-shot function gives |
| HttpRequest.HttpRequest.GetString | project/http/src/http_request.cpp:165-174 | the printed request for any iteration order of the headers |
| HttpTexts.RequestTextIsRead | project/http/src/http_request.cpp:24-155 | any request written out (section 3 of RFC 7230), with any number of blanks between its parts, is read by both parsers with its method, URL, version and headers, names and values in lower case |
| HttpTexts.StartFaults | project/http/src/http_request.cpp:96-128 | which exception a first line without its blanks or its version leaves with, and what has been assigned by then: the method, the URL, the first number of the version |
| HttpTexts.StatusFaults | project/http/src/http_response.cpp:42-56 | the same of a status line: which exception, and which of the three numbers have been assigned, when there is no line feed, no version, a break behind the first number, behind the dot or behind the second number, or no blank at all |
| HttpResponse.HttpResponse.AddLine | project/http/src/http_response.cpp:27-40 | the new state and the exception for every line |
| HttpResponse.HttpResponse.AddFirstLine | project/http/src/http_response.cpp:42-56 | version, status and message, or the exception with what has been assigned by then |
| HttpResponse.HttpResponse.AddHeader | project/http/src/http_response.cpp:58-82 | the header stored under its lower-case name with its value as it is |
| HttpResponse.HttpResponse.GetString | project/http/src/http_response.cpp:14-23 | the printed response for any iteration order of the headers |
| HttpTexts.ResponseTextIsRead | project/http/src/http_response.cpp:27-82 | any response written out is read with its version, status, last word and headers, names in lower case and values as they are |
| Text.ScanPrinted | project/http/src/http_request.cpp:123-126 | a number printed by `to_string` is read back by `%d`, whatever follows it but a digit |
| Text.ScanReads | project/http/src/http_request.cpp:123-126 | a number is read behind any white space, with or without a sign |
| Text.ScanFailsExactly | project/http/src/http_request.cpp:123-126 | no number is read if and only if behind the white space and a sign there is no digit |
| Text.ValueIsDecimal | project/http/src/http_request.cpp:123-126 | numerals are in base ten |
| Text.LowerExactly | project/http/src/string_to_lower.cpp:5-9 | each of the 26 capital letters becomes its small one, and nothing else changes |
| Text.Classes | project/config/src/parse_functions.cpp:126-147 | which characters are white space, blanks and digits |
| Wire.FeedJoins | project/workers/src/client_connection.cpp:210-222 | reading two pieces one after the other is reading their concatenation, up to an exception |
| Wire.SplitDoesNotMatter | project/workers/src/client_connection.cpp:210-222 | line, message and exception depend on the bytes alone, not on how reads split them |
| Wire.LoneLineFeed | project/workers/src/client_connection.cpp:214-217 | a line feed on its own does not end a line |
| RequestWire.StreamingAgreesWithOneShot | project/http/src/http_request.cpp:24-155 | on any message of CRLF-terminated lines the constructor and the line reader throw alike and otherwise read the same method, URL, version and headers, and the reader is done |
| RequestWire.RequestCompletes | project/http/src/http_request.cpp:80-174 | any well-formed request (sections 3.1.1 and 3.2 of RFC 7230), printed in any header order, is read back the same, and its end is recognised with the last byte and not before |
| RequestWire.RequestRoundTrip | project/http/src/http_request.cpp:80-174 | the same from whatever pieces the loops are given, as long as all are read |
| RequestWire.RestIsRead | project/workers/src/client_connection.cpp:214-226 | bytes behind the blank line are read as header lines of the request that has ended |
| RequestWire.BodyLineThrowsExactly | project/workers/src/client_connection.cpp:214-226 | a line of a body that comes with the header throws if and only if it has no colon and does not look like an end of the headers |
| RequestWire.RestThrowsExactly | project/workers/src/client_connection.cpp:214-226 | whatever comes along behind a request throws if and only if one of its lines has no colon, no look of an end and neither line break in front, and none before it has such a break in front without the look of an end |
| RequestWire.EndsExactly | project/http/src/http_request.cpp:80-94 | behind its first line a request ends with a line that looks like an end, or with any line once its headers have been closed |
| ResponseWire.ResponseCompletes | project/http/src/http_response.cpp:14-82 | any response (section 3.1.2 of RFC 7230) is read back from an empty buffer with version, status and all header values under lower-case names, its end recognised with the last byte and not before; of the message the last word is left |
| ResponseWire.ResponseFromBuffer | project/workers/src/client_connection.cpp:499-516 | from any buffer: nothing is thrown if and only if the buffer and the status line scan as one, and then the response is complete with the numbers scanned and all header values |
| ResponseWire.LeftoverThrows | project/workers/src/client_connection.cpp:499-516 | something left in the buffer that does not begin like a status line makes the reading throw |
| ResponseWire.RestIsRead | project/workers/src/client_connection.cpp:499-516 | bytes behind the blank line are read as header lines of the response that has ended, or stay in the buffer |
| ResponseWire.BodyLineThrowsExactly | project/workers/src/client_connection.cpp:499-516 | a line of a body that comes with the header throws if and only if it has no colon and does not begin with a carriage return |
| ResponseWire.RestThrowsExactly | project/workers/src/client_connection.cpp:499-516 | whatever comes along behind a response throws if and only if one of its lines has no colon and neither line break in front, and none before it has such a break in front without being an end |
| ResponseWire.EndsExactly | project/http/src/http_response.cpp:27-40 | behind its first line a response ends with an empty line and not otherwise |
| HeaderNames.RequestNames | project/http/src/http_request.cpp:130-155 | whatever bytes a request is read from, all its header names and values are lower-case |
| HeaderNames.ContentLengthNeverFound | project/http/src/http_request.cpp:130-155 | no request or response read from any bytes has a header named "Content-Length" |
| ConnectionAsIs.NothingIsRelayed | project/workers/src/client_connection.cpp:88-139 | over every run of the code as it is no connection enters a stage that sends a body on or a response of the upstream to the client, and one that asks for the body of a request is left by an exception |
| WirePath.EmitsImage | project/workers/src/client_connection.cpp:259-290 | under every write schedule and over any number of calls the bytes sent are a prefix of the header with CRLF in place of its last byte, and on success all of it if and only if the closing write returned 2 |
| WirePath.ClosingWrite | project/workers/src/client_connection.cpp:259-277 | the call that gets to the end of the text writes a line end in place of its last byte: a failed write sends none of it and is an error, a write cut short sends what was taken and passes for complete |
| WirePath.NeverCloses | project/workers/src/client_connection.cpp:259-267 | a text of fewer than two bytes, or one whose last byte has been passed, never passes for sent, in any number of calls and whatever is accepted |
| ConnectionReads.RequestReadExactly | project/workers/src/client_connection.cpp:41-55 | over the calls of a connection a printed request is read back if and only if no call before the one that gets its last byte ends in a failed read or a timeout |
| ConnectionReads.BrokenRead | project/workers/src/client_connection.cpp:228-231 | the input that shows it: one byte and then a failed read, and the connection is given up |
| ConnectionReads.ResponseReadExactly | project/workers/src/client_connection.cpp:128-146 | a response that comes behind what is in the buffer, if the two scan as a status line, is read to its end if and only if no earlier call ends in a failed read or a timeout |
| WirePath.RequestArrives | project/workers/src/client_connection.cpp:210-290 | print, send under any write schedule with the closing write whole, split by the network, read by a connection: the same request if and only if no earlier call is broken off |
| WirePath.ResponseArrives | project/workers/src/client_connection.cpp:259-290 | the same for a response awaited from the upstream with nothing left in the buffer |
| ConnectionForwards.HeaderIsPassedOn | project/workers/src/client_connection.cpp:259-290 | over any calls, the request header towards the upstream or the response header towards the client: up to the call that ends it the other side has a prefix of its image, and if the connection goes on behind it all of it if and only if the closing write took both bytes |
| ConnectionForwards.RequestIsForwarded | project/workers/src/client_connection.cpp:41-97 | from a fresh connection: a well-formed request for a proxy location, read without a break and sent off over any calls, is read by a server that reads the same way as the same request if and only if none of that server's calls is broken off |
| ConnectionForwards.ResponseIsForwarded | project/workers/src/client_connection.cpp:128-185 | a response read without a break is sent to the client as it has been read, under any answers a prefix, and all of it if and only if the closing write took both bytes |
| ConnectionForwards.EmitIsTheCalls | project/workers/src/client_connection.cpp:259-290 | repeated `send_header` is what the calls of a connection do as long as no time is up |
| ClientConnection.ClientConnection.constructor | project/workers/src/client_connection.cpp:26-30 | a new connection |
| ClientConnection.ClientConnection.ReadRequest | project/workers/src/client_connection.cpp:210-238 | the reading loop: line, request, exception, success, and the error stage after a failed read |
| ClientConnection.ClientConnection.ReadProxyHeader | project/workers/src/client_connection.cpp:499-528 | the same for the response of the upstream, in the body buffer |
| ClientConnection.ClientConnection.ProcessLocation | project/workers/src/client_connection.cpp:418-431 | the next stage and the location, from the routing of the URL |
| ClientConnection.ClientConnection.MakeResponseHeader | project/workers/src/client_connection.cpp:240-257 | header and file of the response, the fallback to the 404 page, and the exceptions of the handler |
| ClientConnection.ClientConnection.SendHeader | project/workers/src/client_connection.cpp:259-290 | what is sent, the position, success and failure, for any write results |
| ClientConnection.ClientConnection.SendFile | project/workers/src/client_connection.cpp:292-319 | which chunks are sent, what is lost, and when the file is done |
| ClientConnection.ClientConnection.GetBody | project/workers/src/client_connection.cpp:530-557 | the buffer, the counters and success after a fill |
| ClientConnection.ClientConnection.SendBody | project/workers/src/client_connection.cpp:564-592 | what is sent, the index, success and failure after a drain |
| ClientConnection.ClientConnection.OnRequest | project/workers/src/client_connection.cpp:41-55 | the first block of a call; a request is passed on only to a location with a first upstream |
| ClientConnection.ClientConnection.OnPass | project/workers/src/client_connection.cpp:62-77 | the first upstream is there when it is connected to, and the request is printed for it |
| ClientConnection.ClientConnection.ConnectionProcessing | project/workers/src/client_connection.cpp:36-208 | one call moves the connection to the state and returns the status that the stage machine says, for any answers of the world |
| ConnectionPages.RequestIsServed | project/workers/src/client_connection.cpp:41-60 | a call in which a request is taken for read: routed to a location that is no proxy and whose file can be opened, the page of the location is chosen; found nowhere, at a bad pattern or without a file, the page for that; routed to a proxy it is passed on |
| ConnectionPages.WellFormedIsServed | project/workers/src/client_connection.cpp:36-257 | the same from a fresh connection over the calls in which it reads a well-formed request |
| ConnectionPages.ThrownAtIsBad | project/workers/src/client_connection.cpp:41-55 | a request at which reading throws leaves the connection in a stage it does not come out of |
| ConnectionTimeouts.WaitsOrGivesUp | project/workers/src/client_connection.cpp:36-208 | a call in which the stage does not come to its end, told in the results of its reads and writes: with the time up the connection is over or, in the stages that blame the upstream, stuck; otherwise it is in the error stage exactly if a read or write has failed, and stays where it is if not |
| ConnectionTimeouts.ChunksExactly | project/workers/src/client_connection.cpp:292-320 | a file is sent to its end exactly if something of every chunk of 100 bytes is accepted; the first chunk that is not ends the call and is skipped by the next |
| Connection.StoulReads | project/workers/src/client_connection.cpp:97-98 | which length is read from digits, with and without a minus sign |
| ConnectionSafety.CallKeeps | project/workers/src/client_connection.cpp:36-208 | every call keeps the invariant: stages of one kind, output in order, a checkout only after the request was passed on, and which side the statuses leave watched in each stage |
| ConnectionSafety.ProxyAndStaticExclude | project/workers/src/client_connection.cpp:36-208 | over every run a connection passed to the proxy enters no stage of a static response, and the other way round |
| ConnectionDelivery.StaticResponse | project/workers/src/client_connection.cpp:187-205 | on the static path the client has a prefix of header and file while every write takes all it is given, and at the end all of it if and only if the closing write returned 2 and every chunk write its chunk length |
| ConnectionSafety.WatchedSideExactly | project/workers/src/client_connection.cpp:36-208 | over every run the watched socket is the one the stage reads or writes if and only if the stage is not the sending of a body to the client, nor the reading of it behind an incomplete fill |
| ConnectionDelivery.UsesItsSide | project/workers/src/client_connection.cpp:36-208 | a stage that reads or writes one socket writes nothing to the other in the same call |
| ConnectionJourneys.WrongSideRuns | project/workers/src/client_connection.cpp:148-158 | for every GET request passed on and every response with a length that is found, two runs in which the other socket is watched |
| RelayRuns.FillIsCode | project/workers/src/client_connection.cpp:118-158 | a call in a reading stage is a filling step of the relay |
| RelayRuns.DrainIsCode | project/workers/src/client_connection.cpp:101-173 | a call in a writing stage is a draining step of the relay |
| RelayRuns.RunIsRounds | project/workers/src/client_connection.cpp:101-173 | over every run of a connection under non-failing answers exactly the bytes of the rounds are written to the upstream or to the client, and the relay is finished with the rounds |
| RelayRuns.BodyArrivesExactly | project/workers/src/client_connection.cpp:101-173 | in every such run, from any buffer, count and length: what has been written is the start of the buffer over and over; at the end it is as long as what has come, at least what the count was short of, and the same if and only if that repeats the start of the buffer; for a whole body from an empty buffer, if and only if it repeats its first 1024 bytes; or the send index has passed the fill index, then the count had reached the length, nothing has come, and what is written is what lies in and behind the buffer |
| RelayRuns.LeftInBuffer | project/workers/src/client_connection.cpp:101-112 | a relayed request body stays in the buffer and in the count when the response is awaited |
| RelayRuns.CutShortRun | project/workers/src/client_connection.cpp:101-173 | a run in which a count carried over cuts the body short by as much |
| BodyOverrun.OverrunsExactly | project/workers/src/client_connection.cpp:530-592 | from any buffer and with any bytes to come some run of the connection takes the send index past the fill index if and only if the count has reached the length |
| BodyOverrun.OverrunRun | project/workers/src/client_connection.cpp:530-592 | the failing run, towards either side: a fill that gets nothing, and a send that writes as many bytes as it may, none of them of this body |
| BodyOverrun.LostForever | project/workers/src/client_connection.cpp:101-173 | from there the relay never gets through, whatever the world answers |
| BodyOverrun.EmptyBodyOverruns | project/workers/src/client_connection.cpp:36-173 | the same from the first call on, for every GET request passed on and every response with a length of 0 |
| BodyAlong.ThroughExactly | project/workers/src/client_connection.cpp:101-173 | from any buffer and count there is a run in which the bytes still to come get the relay to its end if and only if with them the count reaches the length |
| BodyAlong.NeverThrough | project/workers/src/client_connection.cpp:62-185 | if too few bytes are to come for the count, no run gets through, whatever the world answers, failures and timeouts included |
| BodyAlong.ResponseWithBody | project/workers/src/client_connection.cpp:128-146 | a call that gets a response and first bytes of its body goes on to send the response, with the rest in the buffer and the count as it was |
| BodyAlong.ResponseNeverEnds | project/workers/src/client_connection.cpp:128-173 | a response some of whose body has come along with its header, more than the count holds, is never passed on to its end |
| BodyAlong.RequestNeverThrough | project/workers/src/client_connection.cpp:41-126 | the same for the body of a request: its response is never awaited |
| BodyRelay.ChunksAreBoundedExactly | project/workers/src/client_connection.cpp:530-592 | whatever the buffer holds at first, in all schedules of partial reads and writes a chunk holds 1 to 1024 bytes and the send index stays below the fill index and inside the buffer, if and only if the count starts below the length; otherwise a schedule takes the send index past the fill index |
| BodyRelay.ClearedBufferRelays | project/workers/src/client_connection.cpp:101-173 | with the buffer cleared after each round (the intent) a body of any length is passed on byte for byte, over any number of rounds |
| BodyRelay.KeptBufferRelaysExactly | project/workers/src/client_connection.cpp:101-173 | the same of all schedules, from any buffer, count and length: what comes out, how much at the end and when it is unchanged, and what comes out of a relay whose send index has passed the fill index |
| BodyRelay.RepeatedBody | project/workers/src/client_connection.cpp:101-173 | from an empty buffer and the count 0 as many bytes come out as went in, and they are the body if and only if it repeats its first 1024 bytes; a one-round body always is |
| BodyRelay.WholeBodyExactly | project/workers/src/client_connection.cpp:101-173 | every schedule that finishes passes the whole body on if and only if the count starts from 0 and the buffer is cleared or the body repeats |
| BodyRelay.CutShort | project/workers/src/client_connection.cpp:530-557 | with a count of r carried over, a schedule that finishes r bytes short, or before the first byte if r reaches the length |
| BodyRelay.FillSucceedsExactly | project/workers/src/client_connection.cpp:534-556 | a fill succeeds if and only if it fills the buffer, or reaches the length and the read behind the last byte does not fail |
| WorkerProcess.WorkerProcess.Handle | project/workers/src/worker_process.cpp:65-95 | the epoll set and the connections after each status |
| WorkerProcess.WorkerProcess.RunLoop | project/workers/src/worker_process.cpp:41-98 | the event loop over any events computes the run of the loop function |
| WorkerProcess.OneSocketWatched | project/workers/src/worker_process.cpp:48-95 | over every run exactly one of the two sockets of each live connection is registered, on the side the last checkout named, and for that connection |
| WorkerProcess.WorkerRuns | project/workers/src/worker_process.cpp:41-98 | over every run of a worker with any number of connections, from their arrival on, each is in a proper run and exactly one of its sockets is registered, on the side the last checkout named |
| WorkerProcess.CheckoutHasUpstream | project/workers/src/worker_process.cpp:73-94 | a status that checks a socket out comes only from a connection that has been passed on, so there is an upstream socket |
| WorkerProcess.ThrownEndsWorker | project/workers/src/worker_process.cpp:65-67 | an exception out of connection_processing, which nothing catches, ends the worker: whatever happens afterwards, nothing is accepted or served, and its loop stays as it was |
| WorkerProcess.RegisteredExactly | project/workers/src/worker_process.cpp:41-98 | at any time, for every live connection, only the socket its stage uses is registered if and only if it is in neither of the two exceptional cases |
| WorkerProcess.EndLeavesNothingExactly | project/workers/src/worker_process.cpp:68-72 | the end of a connection takes both its sockets out of the set if and only if the client was watched or it has finished |
| WorkerProcess.LeftInSet | project/workers/src/worker_process.cpp:68-72 | for every request passed on, a run of a worker from the arrival of the client on after which the connection is gone and its upstream socket still in the set |
| MohicanServer.MohicanServer.Deliver | project/server/src/mohican_server.cpp:215-266 | which flag each signal raises, through the handler installed for it, and that a stop notes its sender |
| MohicanServer.MohicanServer.AddWorkProcesses | project/server/src/mohican_server.cpp:131-157 | the list is cleared and refilled with the children up to the first fork that fails; nothing happens without a positive count |
| MohicanServer.MohicanServer.FillPidFile | project/server/src/mohican_server.cpp:108-125 | the file lists the master and then its workers in order |
| MohicanServer.MohicanServer.ServerStart | project/server/src/mohican_server.cpp:159-182 | succeeds if and only if the count is positive and no fork fails, with all workers in the list and in the pid file |
| MohicanServer.MohicanServer.ServerStop | project/server/src/mohican_server.cpp:268-320 | every worker gets the signal of the level before the first `waitpid`, which is called once for each; the pid file is removed unless a reload of that level is at 2, when the new master is notified |
| ReloadStops.StopSignalIsServed | project/server/src/mohican_server.cpp:184-225 | a stop signal to an idle master is served: its main loop comes to `server_stop` of that level, with its workers and the sender noted |
| MohicanServer.StartSettles | project/server/src/mohican_server.cpp:159-184 | a started server is settled, so it can take its first command |
| MohicanServer.ForkStepsAreTheLoop | project/server/src/mohican_server.cpp:139-154 | the interleaved fork steps of a new master, taken together, leave the list that the loop of the object leaves for the same children, each of them a new worker of the master |
| ReloadSteps.ElderStep | project/server/src/mohican_server.cpp:184-209 | every statement of the old master keeps the reload invariant |
| ReloadSteps.ElderEnds | project/server/src/mohican_server.cpp:283-316 | the last statement of an old master leaves the pid file and raises the flag the new master waits for |
| ReloadSteps.MidStep | project/server/src/mohican_server.cpp:86-98 | every statement of the intermediate child keeps the reload invariant |
| ReloadSteps.HeirStep | project/server/src/mohican_server.cpp:355-388 | every statement of the new master keeps the reload invariant |
| ReloadSteps.WorkerEnds | project/server/src/mohican_server.cpp:235-302 | the end of a worker keeps it: one of the old master, whose `waitpid` it ends, or one of a former master |
| ReloadSteps.LoopGoesOn | project/server/src/mohican_server.cpp:184-213 | after a reload the main loop looks next at the hard reload flag if it was soft, and at the first flag if it was hard |
| ReloadSteps.StopEndsByItsFlag | project/server/src/mohican_server.cpp:257-320 | server_stop looks at the reload flag of its own level: at 2 it leaves the pid file and notifies, otherwise it removes the file |
| ReloadSafety.EveryRun | project/server/src/mohican_server.cpp:184-388 | over every run, any number of reloads and every interleaving, the system is settled, within the reload invariant, or stopping on a command from outside |
| ReloadSafety.ReloadSettles | project/server/src/mohican_server.cpp:74-388 | a master in its main loop with both reload flags down has all other flags down, is its own old master, has exactly as many workers, all serving, as the configuration read last says, and its pid file; the others have exited but for an intermediate child about to, and then the next command can be given |
| ReloadSafety.NoServiceGap | project/server/src/mohican_server.cpp:268-369 | in every reachable state some master has its complete list of workers, none of them told to stop |
| ReloadSafety.OldMasterStops | project/server/src/mohican_server.cpp:268-316 | a master that stops without a stop from outside has its reload flag at 2, leaves the pid file, which lists the new master and its workers, alone, and notifies the new master |
| ReloadSafety.OutsideStopEnds | project/server/src/mohican_server.cpp:184-193 | when a stop from outside is over, the pid file is gone and every worker of every generation has been told to stop |
| ReloadWaits.OrderlyMastersWait | project/server/src/mohican_server.cpp:276-303 | as long as no signal from elsewhere ends a wait, over any number of reloads and stops every worker has ended whose master has exited |
| ReloadWaits.StartedMastersWait | project/server/src/mohican_server.cpp:159-303 | the same over every such run from the start of the server on |
| ReloadStops.StopAwaitsAllExactly | project/server/src/mohican_server.cpp:257-303 | after a stop from outside all workers of the master have ended in every run if and only if it has one |
| ReloadStops.LeftBehind | project/server/src/mohican_server.cpp:257-303 | a run in which the second worker ends first and the master exits with the first still running |
| ReloadElderStops.ReloadAwaitsAllExactly | project/server/src/mohican_server.cpp:86-303 | at any time of a reload at which no worker of the old master has been told to stop: in every run all its workers have ended when it has exited, if and only if it has one and the intermediate child has exited |
| ReloadElderStops.LeftBehindInReload | project/server/src/mohican_server.cpp:86-303 | for every settled system and both commands a reload that ends settled with a worker of the old master told to stop and still running |
| ReloadProgress.ReloadCanFinish | project/server/src/mohican_server.cpp:322-388 | from every state of a reload a settled state can be reached: no interleaving leads into a dead end |
| ReloadBadConfig.GapRun | project/server/src/mohican_server.cpp:397-402 | a run in which a configuration without a positive count leaves every worker told to stop |
| ReloadBadConfig.NoServiceGapExactly | project/server/src/mohican_server.cpp:268-402 | no run has a service gap if and only if the worker count is positive |

## Left out

- Sockets, `epoll_wait`, `fork`, `kill`, `waitpid`, DNS and `connect`: their results are parameters or abstract steps.
- Log files and messages, Boost, the clock: a timeout is an arbitrary boolean.
- The semantics of `std::regex`: a predicate of pattern and URL.
- `http_handler`, with the constructor of a response that only it calls, the MIME table and the date: the header text and the file they lead to are arbitrary.
- The ban list: the event loop does not call it.
- The reading of the configuration file: the text is a parameter, empty if the file cannot be read.
- `print_properties`, getters, shell scripts, `statistics.py` and the build files.
- The soft-stop epilogue of a worker, which serves one last batch of events before it exits.
- The state after an exception that leaves `connection_processing`, with the empty header the lookup inserts: it ends the worker.
- Liveness of the stages for a bad request, a failed connect and a proxy timeout: the code gives them no way out.
- Integers of the HTTP parsers are unbounded: what `%d` does beyond the range of an int is undefined in C.
- Fields and bytes read before they are set (`value[-1]` of an empty value, bytes behind the body buffer): a value that is not used, or a zero.
- Balancing.StartBalancing: the draw is a parameter in place of `rand`, and prefix sums are required to fit an int.
- ReloadProgress.ReloadCanFinish: says that the end can be reached under some schedule, not that every schedule reaches it.
- RelayRuns.RunIsRounds: is about answers that do not fail; a failed read or write ends the relay in the error stage.
- BodyRelay.ClearedBufferRelays: is about the code with the buffer cleared, the intent; the code as it is has its own theorem.
