# mxfingerd in Dafny

mxfingerd is a finger server whose directory is a JMX management-bean
server. A client sends one line. The server parses it into a `Request`
and hands that request, with a fresh `Response`, to the `JMXlet`
directory backend. `JMXlet.lookup` connects to the JMX service named by
the request. It then answers with one of:

- one attribute of a bean;
- every attribute of a bean;
- the sorted list of all bean names;
- if anything throws, the exception's message and stack frames.

`Response.finish` writes the collected lines, joined by CR LF, and closes
the connection once that write completes. A `TimeoutFilter` on the
acceptor closes connections that send nothing within the maximum wait
time or go idle first.

The model is split into these modules:

- `JavaLang` gives the Java library behaviour the code relies on. It
  covers `String.trim`, `startsWith`, `split` on a one-character pattern
  (trailing empty pieces dropped), `compareTo`, 32-bit `int`, and the two
  index exceptions that can occur.
- `Requests` holds `Request`, an immutable value. Its getters
  `getUserName`, `getProxyHost` and `isVerbose` are the destructors
  `userName`, `proxyHost` and `verbose`.
- `Responses` holds the `Response` class. It has the `StringBuffer` as a
  string, a ghost list of the lines sent so far, and the list of requests
  made of the session (`Write`, then `CloseWhenWritten`). `Framed` and
  `JoinLines` specify the buffer and what `finish` writes.
- `JMXlet` models `lookup`.
  - A `Network` maps service URLs to the `Directory` reachable there.
    Connecting succeeds exactly when the URL is a key.
  - A `Directory` maps object names to their attributes in declared order.
    Each attribute holds a value or the message of the exception its read
    raises.
  - The ghost functions `TryBlock` and `ResponseLines` specify the try and
    catch blocks.
  - The method `Lookup` implements them step by step: `Try` (with
    `QueryStore` and `QueryBean` once connected), `Catch`, and then the
    finally block's `finish` and `close`. Name collection and sorting are
    the methods `CollectNames` and `SortNames`.
- `Timeouts` models `TimeoutFilter`.
  - It is a class with the shared `queryReceived` latch, the connected
    flag of each session, the scheduled max-wait callbacks that have not
    yet run, and a log of every side effect in order.
  - The pure `Step`/`Run` functions specify each event. Each handler
    method ensures that its new state is `Step` of its old state.
- `FingerServer` holds the pure query parser `Parse` and the `Finger`
  class.
  - `Finger` has the timeout and thread settings with their defaults, the
    setters, the construction of the timeout filter, and the
    `messageReceived` handler.
  - That handler makes exactly one `lookup` call per parsed line.

### Behaviour as implemented

The model follows the code as written, including these behaviours:

- **Parse errors.** Parsing can fail. A trimmed line of exactly `/W`
  throws on `substring(3, 2)`. A target whose `@` split has fewer than two
  pieces (`bob@`, `@`, `@@`) throws an index error. No `Request` or
  `Response` is created and `lookup` is not called.
- **Verbose prefix.** The verbose marker is recognised by `startsWith("/W")`
  alone, and exactly three characters are dropped whatever the third one
  is. `/Wbob` therefore looks up `ob`.
- **Empty proxy host.** An empty proxy host is not replaced by any default
  host: the service URL simply has an empty host part.
- **Which input sets the latch.** The timeout filter sits first in the
  chain, before the text-line decoder. Any data received on any session
  sets the latch, not only a complete line.
- **Empty answers.** When `lookup` sent no line at all, `finish` throws and
  the connector's `close()` is skipped. This happens for a non-verbose
  listing of a store with no beans, or of a bean with no attributes.
  `JMXlet.EmptyAnswerIsEmptyListing` shows that these are the only ways it
  can happen, and `JMXlet.EmptyAnswerLeavesConnectorOpen` that the
  connector is then open.

## Model

| member | source | states |
|---|---|---|
| JavaLang.Trim | src/main/java/org/skife/finger/Finger.java:83 | the result is empty or starts and ends with a non-blank char (code above U+0020) |
| JavaLang.TrimLeading | src/main/java/org/skife/finger/Finger.java:83 | the leading half of `trim()`: the result is a suffix of the input, everything dropped is blank, and it is empty or starts with a non-blank char |
| JavaLang.TrimTrailing | src/main/java/org/skife/finger/Finger.java:83 | the trailing half of `trim()`: the result is a prefix of the input, everything dropped is blank, and it is empty or ends with a non-blank char |
| JavaLang.StartsWith | src/main/java/org/skife/finger/Finger.java:84 | `startsWith`: the prefix is no longer than the string and equals its first chars; `ParseVerboseTarget` and `QueryVerbose` are proved with it |
| JavaLang.TrimEmptyIffBlank | src/main/java/org/skife/finger/Finger.java:83 | a line trims to the empty string exactly when every char of it is blank |
| JavaLang.TrimIdempotent | src/main/java/org/skife/finger/Finger.java:83 | trimming twice gives the same result as trimming once |
| JavaLang.TrimNoBlankEnds | src/main/java/org/skife/finger/Finger.java:83 | a string with no blank at either end is its own trim |
| JavaLang.SplitOn | src/main/java/org/skife/finger/Finger.java:91 | the pieces between separators: at least one piece, none containing the separator |
| JavaLang.JoinSplitOn | src/main/java/org/skife/finger/Finger.java:91 | joining the pieces with the separator gives back the original text |
| JavaLang.SplitOnJoin | src/main/java/org/skife/finger/Finger.java:91 | splitting separator-free pieces joined by the separator gives back the pieces |
| JavaLang.DropTrailingEmpty | src/main/java/org/skife/finger/Finger.java:91 | the result is a prefix of the pieces; every dropped piece is empty; the last kept piece is non-empty |
| JavaLang.DropTrailingEmptyLength | src/main/java/org/skife/finger/Finger.java:91 | more than k pieces survive exactly when some piece at index k or later is non-empty |
| JavaLang.SplitOnHasNonEmpty | src/main/java/org/skife/finger/Finger.java:91 | some piece is non-empty exactly when the text is not made only of separators |
| JavaLang.JavaSplit | src/main/java/org/skife/finger/Finger.java:91 | `split` on a one-char pattern: `[s]` without the char, otherwise the pieces between occurrences with trailing empty ones dropped; `JavaSplitPiecesFree` and `JavaSplitAtFirst` prove what callers index of it |
| JavaLang.JavaSplitPiecesFree | src/main/java/org/skife/finger/Finger.java:91 | no piece that `split` returns contains the separator |
| JavaLang.JavaSplitAtFirst | src/main/java/org/skife/finger/Finger.java:91-93 | for text containing the separator: there are no pieces iff the text is all separators; there are two or more iff something other than separators follows the first one; piece 0 is the text before the first separator; piece 1 is the text between the first and the second |
| JavaLang.FirstIndex | src/main/java/org/skife/finger/Finger.java:91 | the index of the first occurrence: that char is the separator and none comes before it |
| JavaLang.LexLess | src/main/java/org/skife/finger/JMXlet.java:82 | `compareTo(a, b) < 0`: a smaller char at the first difference, or a proper prefix; the four lemmas below prove it a strict total order |
| JavaLang.LexLessIrreflexive | src/main/java/org/skife/finger/JMXlet.java:82 | no name sorts before itself |
| JavaLang.LexLessAsymmetric | src/main/java/org/skife/finger/JMXlet.java:82 | two names never each sort before the other |
| JavaLang.LexLessTotal | src/main/java/org/skife/finger/JMXlet.java:82 | of two different names, one sorts before the other |
| JavaLang.LexLessTransitive | src/main/java/org/skife/finger/JMXlet.java:82 | the `compareTo` order is transitive |
| Responses.Framed | src/main/java/org/skife/finger/Response.java:39-42 | the buffer after `sendLine` of each line in turn; `FramedAppend` and `FramedIsJoinedPlusTerminator` prove its shape |
| Responses.JoinLines | src/main/java/org/skife/finger/Response.java:46 | the lines separated by CR LF with nothing after the last; `FinishWritesJoinedLines` proves it is what `finish` writes |
| Responses.FramedAppend | src/main/java/org/skife/finger/Response.java:39-42 | sending a line appends exactly the line and CR LF, and leaves the earlier buffer unchanged |
| Responses.FramedIsJoinedPlusTerminator | src/main/java/org/skife/finger/Response.java:39-46 | after one or more lines the buffer is the lines joined by CR LF plus one trailing CR LF |
| Responses.FinishText | src/main/java/org/skife/finger/Response.java:46 | the substring succeeds iff the buffer has at least two chars; it then removes exactly the last two; otherwise it fails with a negative end index |
| Responses.FinishWritesJoinedLines | src/main/java/org/skife/finger/Response.java:39-46 | after lines l1..ln, n >= 1, `finish` writes them joined by CR LF with no trailing terminator; with no lines it fails with end index -2 |
| Responses.FinishExample | src/main/java/org/skife/finger/Response.java:39-46 | lines "a", "b", "c" are written as "a\r\nb\r\nc" |
| Responses.Response.constructor | src/main/java/org/skife/finger/Response.java:27-32 | a new response has an empty buffer, no lines, and has asked nothing of its session |
| Responses.Response.SendLine | src/main/java/org/skife/finger/Response.java:39-42 | the buffer gains the line and CR LF; the recorded lines gain the line; the session is not touched |
| Responses.Response.Send | src/main/java/org/skife/finger/Response.java:34-37 | exactly `SendLine(key + ": " + value)` |
| Responses.Response.Finish | src/main/java/org/skife/finger/Response.java:44-47 | the buffer is left as it was; with lines sent, one write of the joined lines followed by close-on-completion; with none, an index exception and no request to the session |
| JMXlet.HostPort | src/main/java/org/skife/finger/JMXlet.java:47-53 | host and port from the proxy host, default port "8989", index errors from the `:` split; `HostPortSplit` proves each case |
| JMXlet.ServiceUrl | src/main/java/org/skife/finger/JMXlet.java:55 | the JMX service URL for a host and port; `DefaultPortUrl` proves the URL a port-less host connects to |
| JMXlet.HostPortSplit | src/main/java/org/skife/finger/JMXlet.java:47-53 | without ':' the host is the whole proxy host and the port is "8989"; with ':' the host is the text before the first ':' and the port is the text up to the next ':'; otherwise index error 1, or index error 0 when the text is all ':' |
| JMXlet.HostPortMissingPort | src/main/java/org/skife/finger/JMXlet.java:47-53 | "h:" fails with an index error on parts[1] |
| JMXlet.FindAttribute | src/main/java/org/skife/finger/JMXlet.java:68 | the first attribute with the given name, or past the end when there is none |
| JMXlet.GetAttribute | src/main/java/org/skife/finger/JMXlet.java:68 | reading one attribute: its value; a missing bean or attribute fails; a read that raises fails with the message the directory records; `SingleAttributeLine` and `SingleAttributeReadFails` prove both outcomes of the single-attribute branch |
| JMXlet.DefaultPortUrl | src/main/java/org/skife/finger/JMXlet.java:47-56 | for a proxy host without ':' the connector opens iff "service:jmx:rmi:///jndi/rmi://HOST:8989/jmxrmi" is reachable |
| JMXlet.ConnectFailureIsDiagnosed | src/main/java/org/skife/finger/JMXlet.java:55-111 | when the URL cannot be reached the whole answer is the failure's message and stack frames, with no echo even in verbose mode |
| JMXlet.VerboseEchoesBeanFirst | src/main/java/org/skife/finger/JMXlet.java:56-64 | once connected, in verbose mode the first line sent is the bean name (piece 0 of the '#' split) |
| JMXlet.SingleAttributeLine | src/main/java/org/skife/finger/JMXlet.java:65-71 | `bean#attribute` with a readable attribute answers exactly the one line `attribute: value` |
| JMXlet.Insert | src/main/java/org/skife/finger/JMXlet.java:82 | the list grows by one and its members are the old ones plus the new name |
| JMXlet.InsertAscending | src/main/java/org/skife/finger/JMXlet.java:82 | inserting a new name into an ascending list keeps it ascending |
| JMXlet.AscendingDistinct | src/main/java/org/skife/finger/JMXlet.java:82 | an ascending list has no duplicates |
| JMXlet.SortedListingUnique | src/main/java/org/skife/finger/JMXlet.java:82 | only one ascending list holds exactly a given set of names |
| JMXlet.ListingEmpty | src/main/java/org/skife/finger/JMXlet.java:76-82 | a list holding exactly the members of a set is empty iff the set is |
| JMXlet.SortedListingExists | src/main/java/org/skife/finger/JMXlet.java:82 | every finite set of names has an ascending listing |
| JMXlet.SortedNames | src/main/java/org/skife/finger/JMXlet.java:74-86 | the names of the store, each once, in ascending `compareTo` order |
| JMXlet.CollectNames | src/main/java/org/skife/finger/JMXlet.java:76-80 | the list holds exactly the queried names, each once |
| JMXlet.SortNames | src/main/java/org/skife/finger/JMXlet.java:82 | the sorted list is ascending and holds exactly the names of the input |
| JMXlet.DistinctCardinality | src/main/java/org/skife/finger/JMXlet.java:83-85 | a list without duplicates has as many entries as distinct members |
| JMXlet.SortedNamesCount | src/main/java/org/skife/finger/JMXlet.java:74-86 | the listing has exactly one line per object name |
| JMXlet.EmptyBeanListsAllNames | src/main/java/org/skife/finger/JMXlet.java:74-86 | an empty bean name answers every object name once, in ascending order, one per line |
| JMXlet.AttributeListing | src/main/java/org/skife/finger/JMXlet.java:88-103 | a named bean answers one `name: value` line per attribute in declared order; a failed read shows its exception's message and the listing goes on |
| JMXlet.AttributeLines | src/main/java/org/skife/finger/JMXlet.java:91-102 | the attribute listing: one `name: value` line per attribute info in declared order; `SendAttributes` is proved to append it and `AttributeListing` states it of the whole answer |
| JMXlet.Render | src/main/java/org/skife/finger/JMXlet.java:98-101 | `String.valueOf` of what was read: the value's text, or the message of the exception the read threw |
| JMXlet.ExtraHashesIgnored | src/main/java/org/skife/finger/JMXlet.java:60-65 | with three or more '#' pieces the answer is the one for the bean name alone |
| JMXlet.StoreExtraHashesIgnored | src/main/java/org/skife/finger/JMXlet.java:60-65 | once connected, a user name with three or more '#' pieces gets the same lines and exception as its first piece alone |
| JMXlet.EmptyAnswerLeavesConnectorOpen | src/main/java/org/skife/finger/JMXlet.java:106-123 | an empty answer only happens with the connector open, no exception in the try block, and verbose off |
| JMXlet.EmptyAnswerIsEmptyListing | src/main/java/org/skife/finger/JMXlet.java:65-123 | an empty answer, once the proxy host is reached, comes only from a non-verbose request without an attribute piece that names no bean in a store with no beans, or names a bean with no attributes |
| JMXlet.Describe | src/main/java/org/skife/finger/JMXlet.java:106-111 | what the catch block prints of a fault: a failed read prints the message the directory records for it, as the listing branch at line 98 does; all other messages and the stack frames come from the exception |
| JMXlet.CatchLines | src/main/java/org/skife/finger/JMXlet.java:106-112 | the catch block's lines: the fault's message and then its stack frames, or nothing without a fault; `Catch` is proved against it |
| JMXlet.DiagnosticLines | src/main/java/org/skife/finger/JMXlet.java:108-111 | the exception's message line followed by one line per stack frame; `ConnectFailureIsDiagnosed` and `SingleAttributeReadFails` state it of whole answers |
| JMXlet.BeanOutcome | src/main/java/org/skife/finger/JMXlet.java:65-103 | the branches after the echo: one attribute, the sorted names, missing bean, or the attribute listing; `QueryBean` is proved against it |
| JMXlet.StoreOutcome | src/main/java/org/skife/finger/JMXlet.java:58-104 | the try block once connected: the '#' split (index error 0 on all '#'), the verbose echo, then `BeanOutcome`; `QueryStore` is proved against it |
| JMXlet.TryBlock | src/main/java/org/skife/finger/JMXlet.java:45-105 | the whole try block: address split, connect, then `StoreOutcome`; `Try` is proved against it, and the lemmas above state what it sends in each case |
| JMXlet.ResponseLines | src/main/java/org/skife/finger/JMXlet.java:45-112 | every line `lookup` sends: the try block's, then the catch block's; `Lookup` is proved against it |
| JMXlet.SingleAttributeReadFails | src/main/java/org/skife/finger/JMXlet.java:65-71 | `bean#attribute` whose read raises answers the recorded message of that read followed by the stack frames |
| JMXlet.VerboseEchoThenAnswer | src/main/java/org/skife/finger/JMXlet.java:60-64 | once connected, the verbose answer is the bean name followed by exactly the non-verbose answer to the same request |
| JMXlet.SendLines | src/main/java/org/skife/finger/JMXlet.java:83-85 | the lines are appended to the response in order; the session is not touched |
| JMXlet.SendAttributes | src/main/java/org/skife/finger/JMXlet.java:91-102 | appends one `name: value` line per attribute, a failed read contributing its exception's message |
| JMXlet.SendSortedNames | src/main/java/org/skife/finger/JMXlet.java:76-85 | appends the names of the store, each once, in ascending order, one per line |
| JMXlet.QueryBean | src/main/java/org/skife/finger/JMXlet.java:65-103 | after the echo: the lines sent and the exception raised are those of the specification for two '#' pieces, the empty bean name, a missing bean or a named bean |
| JMXlet.QueryStore | src/main/java/org/skife/finger/JMXlet.java:58-104 | once connected, the lines sent and the exception raised are those of the store-side specification (echo, single attribute, sorted listing, attribute listing or failure) |
| JMXlet.Try | src/main/java/org/skife/finger/JMXlet.java:45-105 | the try block sends exactly the specified lines; it raises the specified exception (address split, connect failure or store-side failure); the connector is open iff the URL was reached |
| JMXlet.Catch | src/main/java/org/skife/finger/JMXlet.java:106-112 | with an exception: appends its message (for a failed attribute read, the message the directory records) and then one line per stack frame; without one, sends nothing |
| JMXlet.Answer | src/main/java/org/skife/finger/JMXlet.java:45-112 | the try block's lines followed by the catch block's lines, and nothing asked of the session yet |
| JMXlet.Lookup | src/main/java/org/skife/finger/JMXlet.java:42-124 | sends the try block's lines then the catch block's diagnostic; `finish` runs exactly once, before the connector's `close`; `close` runs iff the connector opened and `finish` did not throw; `finish` throws exactly when nothing was sent |
| Timeouts.Step | src/main/java/org/skife/finger/TimeoutFilter.java:46-75 | the effect of one event on the latch, the sessions, the pending callbacks and the side-effect log; each `TimeoutFilter` handler is proved to perform it |
| Timeouts.Expire | src/main/java/org/skife/finger/TimeoutFilter.java:54-55 | `session.write(notice); session.close()`, here and at TimeoutFilter.java:72-73: the write then the close are logged and the session is no longer connected; `MaxWaitExpiresSilentSession` and `IdleFirstMeansNoTimeoutNotice` are proved with it |
| Timeouts.Initial | src/main/java/org/skife/finger/TimeoutFilter.java:36 | the latch starts false, with no sessions, pending callbacks or side effects; the `TimeoutFilter` constructor ensures this state |
| Timeouts.Run | src/main/java/org/skife/finger/TimeoutFilter.java:46-75 | events applied in order; the lemmas below are about it |
| Timeouts.RunConcat | src/main/java/org/skife/finger/TimeoutFilter.java:46-75 | running two event sequences one after the other is running their concatenation |
| Timeouts.RunExtendsLog | src/main/java/org/skife/finger/TimeoutFilter.java:46-75 | the side effects already performed are never undone; the log only grows |
| Timeouts.LatchNeverResets | src/main/java/org/skife/finger/TimeoutFilter.java:36-67 | once `queryReceived` is true it stays true, whatever events follow |
| Timeouts.LatchedFilterIsQuiet | src/main/java/org/skife/finger/TimeoutFilter.java:53-75 | once the latch is set, no handler writes to or closes any session |
| Timeouts.MessageDisarmsEverySession | src/main/java/org/skife/finger/TimeoutFilter.java:36-75 | after a message on any one session, no session (including later ones) is ever sent a notice or closed by the filter |
| Timeouts.StepKeepsDisconnected | src/main/java/org/skife/finger/TimeoutFilter.java:49-75 | a single event leaves a disconnected session disconnected and appends no timeout notice to it |
| Timeouts.DisconnectedStaysDisconnected | src/main/java/org/skife/finger/TimeoutFilter.java:53-56 | a disconnected session stays disconnected and never receives the timeout notice |
| Timeouts.IdleFirstMeansNoTimeoutNotice | src/main/java/org/skife/finger/TimeoutFilter.java:53-75 | an idle notification before any message writes the idle notice and closes; the later max-wait callback then sends that session nothing |
| Timeouts.MaxWaitExpiresSilentSession | src/main/java/org/skife/finger/TimeoutFilter.java:49-59 | with no message received, a connected session gets "Connection closed due to timeout" and is closed when its callback runs |
| Timeouts.TimeoutFilter.constructor | src/main/java/org/skife/finger/TimeoutFilter.java:34-43 | stores both times; the latch starts false with no sessions, callbacks or side effects |
| Timeouts.TimeoutFilter.SessionCreated | src/main/java/org/skife/finger/TimeoutFilter.java:46-61 | sets the reader idle time to maxIdle, schedules exactly one callback after maxTime, then forwards the creation, in that order |
| Timeouts.TimeoutFilter.MessageReceived | src/main/java/org/skife/finger/TimeoutFilter.java:63-67 | sets the latch, then forwards the same message |
| Timeouts.TimeoutFilter.MaxWaitCallback | src/main/java/org/skife/finger/TimeoutFilter.java:51-58 | writes the timeout notice and then closes iff the latch is clear and the session is connected; otherwise does nothing besides retiring the callback |
| Timeouts.TimeoutFilter.SessionIdle | src/main/java/org/skife/finger/TimeoutFilter.java:69-75 | writes the idle notice and then closes whenever the latch is clear, without checking that the session is connected |
| Timeouts.TimeoutFilter.SessionClosed | src/main/java/org/skife/finger/TimeoutFilter.java:53 | a session closed elsewhere is no longer connected; nothing else changes |
| Requests.Request | src/main/java/org/skife/finger/Request.java:23-47 | the immutable request: user name, proxy host and verbose flag, set once by the constructor and read by the three getters (the destructors); `Parse` and `Lookup` are stated over it |
| FingerServer.Address | src/main/java/org/skife/finger/Finger.java:89-94 | text without '@' is the whole target with an empty host; the verbose flag is passed through |
| FingerServer.Query | src/main/java/org/skife/finger/Finger.java:84-94 | on a trimmed line, a parsed request is verbose exactly when the line starts with "/W" |
| FingerServer.Parse | src/main/java/org/skife/finger/Finger.java:82-94 | a parsed request is verbose exactly when the trimmed line starts with "/W" |
| FingerServer.ParseTrimmed | src/main/java/org/skife/finger/Finger.java:83 | parsing a line and parsing its trim give the same result |
| FingerServer.ParseBlankLine | src/main/java/org/skife/finger/Finger.java:82-94 | an empty or all-blank line parses to Request("", "", false) without failure |
| FingerServer.ParseBareVerbose | src/main/java/org/skife/finger/Finger.java:84-87 | the substring fails exactly when the trimmed line is "/W" |
| FingerServer.AddressAt | src/main/java/org/skife/finger/Finger.java:89-94 | with '@': the user is the text before the first '@' and the host the text up to the next '@'; it fails iff only '@'s follow the first one, with index 0 iff the text is all '@' |
| FingerServer.AddressFailure | src/main/java/org/skife/finger/Finger.java:89-94 | the '@' split fails iff the target contains '@' and only '@'s follow its first one |
| FingerServer.ParsedPartsHaveNoAt | src/main/java/org/skife/finger/Finger.java:89-94 | neither the user nor the host of a parsed request contains '@' |
| FingerServer.QueryFailure | src/main/java/org/skife/finger/Finger.java:84-94 | on a trimmed line: fails iff the line is exactly "/W" or the target's '@' split fails |
| FingerServer.ParseFailure | src/main/java/org/skife/finger/Finger.java:83-93 | parsing fails iff the trimmed line is "/W", or the target contains '@' and only '@'s follow its first '@' |
| FingerServer.ParsePlain | src/main/java/org/skife/finger/Finger.java:83-94 | without the "/W" prefix the whole trimmed line is the target, not verbose |
| FingerServer.ParseBareLine | src/main/java/org/skife/finger/Finger.java:83-94 | a line with no blank ends and no leading '/' is its own non-verbose target |
| FingerServer.ParseVerboseTarget | src/main/java/org/skife/finger/Finger.java:84-94 | with the "/W" prefix exactly the first three characters are dropped, whatever the third is |
| FingerServer.QueryVerbose | src/main/java/org/skife/finger/Finger.java:84-88 | a trimmed line starting with "/W" and at least three characters long has its target after the third character, verbose |
| FingerServer.ParseUntrimmed | src/main/java/org/skife/finger/Finger.java:83 | a line without blanks at either end is parsed as it stands |
| FingerServer.ParseVerboseLine | src/main/java/org/skife/finger/Finger.java:82-94 | a line starting with "/W", three or more characters long and not ending in a blank: verbose, with the text from the fourth character on as target |
| FingerServer.AddressUserHost | src/main/java/org/skife/finger/Finger.java:89-94 | `user@host`, optionally followed by '@' and anything, gives exactly that user and host |
| FingerServer.ParseVerboseUserAtHost | src/main/java/org/skife/finger/Finger.java:82-94 | "/W user@host" gives exactly (user, host, verbose) |
| FingerServer.ParseVerboseUserOnly | src/main/java/org/skife/finger/Finger.java:82-94 | "/W user" with no '@' gives (user, "", verbose) |
| FingerServer.ParseUserAtHost | src/main/java/org/skife/finger/Finger.java:82-94 | "user@host" (no blank ends, no leading '/') gives exactly (user, host, not verbose) |
| FingerServer.ParseVerboseUser | src/main/java/org/skife/finger/Finger.java:82-94 | "/W bob" gives target "bob", no host, verbose |
| FingerServer.ParseVerboseProxied | src/main/java/org/skife/finger/Finger.java:82-94 | "/W bob@h" gives ("bob", "h", verbose) |
| FingerServer.ParseProxied | src/main/java/org/skife/finger/Finger.java:82-94 | "bob@host:1234" gives ("bob", "host:1234", not verbose): the port stays in the host |
| FingerServer.ParseSecondAtIgnored | src/main/java/org/skife/finger/Finger.java:89-94 | "a@b@c" gives host "b" |
| FingerServer.ParseNoHost | src/main/java/org/skife/finger/Finger.java:91-93 | "bob@" fails with an index error on parts[1] |
| FingerServer.ParseOnlyAts | src/main/java/org/skife/finger/Finger.java:91-93 | "@", "@@" and every other all-'@' text fail with an index error on parts[0] |
| FingerServer.Finger.constructor | src/main/java/org/skife/finger/Finger.java:49-59 | stores the port; the wait time is 5000, the idle time 1000 and the thread count 25 |
| FingerServer.Finger.SetMaxQueryWaitTime | src/main/java/org/skife/finger/Finger.java:117-120 | replaces the wait time and nothing else |
| FingerServer.Finger.SetMaxIdleReadTime | src/main/java/org/skife/finger/Finger.java:122-125 | replaces the idle time and nothing else |
| FingerServer.Finger.SetIoThreadCount | src/main/java/org/skife/finger/Finger.java:127-130 | replaces the thread count and nothing else |
| FingerServer.Finger.NewTimeoutFilter | src/main/java/org/skife/finger/Finger.java:70 | a fresh filter with the current wait and idle times and a clear latch |
| FingerServer.Finger.MessageReceived | src/main/java/org/skife/finger/Finger.java:80-97 | a line that fails to parse creates no response; otherwise exactly one request (the parse) and one fresh response are passed to a single `lookup`, and the response ends up holding that lookup's answer |

## Left out

- Server plumbing is not modelled. This covers the MINA acceptor, the
  text-line codec, the executor filter, binding, `unbindAll` and the
  `IoServiceManager` registration. It is network and library code.
- `main`'s probe of port 79, its fallback to 7979 and the shutdown hook
  are not modelled. They are process and socket I/O.
- The JMX, RMI and JNDI calls are replaced by the `Network` and
  `Directory` values described above.
- Exception messages and stack frames are opaque. They come from the
  `diag` parameter, except the message of a failed attribute read, which
  the directory records.
- Once connected, the store fails only on a missing bean, a missing
  attribute or an attribute read. Exceptions from
  `getMBeanServerConnection`, `queryNames` or `getMBeanInfo` after the
  connection is made are not modelled.
- `Directory` keys are not constrained to valid object names. In the
  source `new ObjectName("")` is the pattern `*:*`, on which `getAttribute`
  throws; a store with a `""` key would instead let `#attr` read that
  attribute.
- A malformed `ObjectName` is not distinguished from a missing bean.
- `String.valueOf` of a null value or message (the text "null") is not
  modelled separately: values are strings.
- The order in which `queryNames` returns names is abstracted to a set.
  The sorted result does not depend on it.
- Timers, thread pools and atomic variables are left out. Timer expiries,
  idle notifications and closes are explicit events applied one at a time;
  concurrency is out of scope.
- MINA's meaning of `setIdleTime`, and whether MINA ever calls the
  two-argument `sessionIdle`, are library behaviour that is not part of
  this model. `Timeouts.TimeoutFilter.SessionIdle` is modelled as written,
  as a handler that may be called.
- `threadCount` only sizes the worker pool, which is not modelled. The
  same holds for `port`, which only feeds the bind.
- Logging (`log.warn`, `log.info`) is not modelled.
- The `Fingerlet` interface is not part of this model. `Finger` is wired
  to the `JMXlet` backend, the only implementation.
- JavaLang.LexLess: compares Unicode scalar values, not UTF-16 code units
  as `String.compareTo` does. The two orders differ only for characters
  outside the Basic Multilingual Plane.
- JMXlet.SortNames: inserts names one at a time instead of using
  `Collections.sort`'s merge sort. Both produce the same list, because
  only one ascending list holds a given set of names
  (`JMXlet.SortedListingUnique`).
- Timeouts.TimeoutFilter.SessionIdle: the reader idle status argument is
  dropped, because the handler ignores it.
