# qtmc command/trigger correlation, modelled in Dafny

qtmc is a command-line tool that drives Qualisys Track Manager (QTM) over its
real-time protocol: `qtmc start`, `qtmc stop [<filename>]` and
`qtmc save <filename>`. This project models its core:

- **The correlation engine** (`send_command_await_event`). It sends one
  textual command. Then it polls classified packets one at a time and keeps
  three growing lists: packet-error texts, echoed command strings and events.
  After each received packet it evaluates the caller's trigger table. It stops
  when one of three things happens:
  - a packet error arrived;
  - a trigger completes: its text is the newest echo, and its event is not
    required or has been seen at any time;
  - a non-empty echo names no trigger.
- **The flag record** `RtCommandResult`, with `has_error` and
  `has_satisfied_result`.
- **The per-command wrappers** (Close, New, Start, Stop, with their trigger
  tables, and save/load). Each one maps a failed dispatch to its own
  `OperationResult` category.
- **The operation sequencers** `start_capture`, `save_measurement` and
  `stop_capture`. `start_capture` and `stop_capture` stop at the first
  failing step; `save_measurement` ignores a failed Stop and saves anyway;
  `stop_capture` saves only when a file name is given.
- **`app_logic`**, which dispatches on the operation name and reports success
  exactly when the result is `Ok`.
- **`operation_result_to_string`** and the error line printed for a failed
  result.

Files:

- `packets.dfy` (module `Packets`): events and packets as the engine sees them
  after the protocol library has classified them.
- `correlation.dfy` (module `Correlation`): the engine.
  - `SendCommandAwaitEvent` is the source's loop. It is written as a `while`
    loop over local lists and updates the result flags field by field.
  - It is proved equal to the recursive specification `Dispatch`, built from
    `Await`, `Poll` and `Evaluate`.
- `correlation_properties.dfy` (module `CorrelationProperties`): a declarative
  view of a dispatch. A dispatch returns at the first poll that received a
  packet and whose evaluation of everything received so far is terminal. The
  properties are proved from that view.
- `commands.dfy` (module `Commands`): the result categories, the wrappers and
  their trigger tables, and scenario lemmas about the tables.
- `operations.dfy` (module `Operations`): the three sequencers and `AppLogic`.

How the protocol library is represented:

- The protocol object (`CRTProtocol`) belongs to a foreign library. It is a
  `Link` value with these parts:
  - what each of its calls will answer: connect, is-controlling, take
    control, the commands whose send fails, save and load;
  - the packets successive polls return;
  - the log of requests made so far.
- A wrapper or sequencer returns the link as it leaves it, instead of
  mutating it.
- The `CommandResult&` in/out parameter becomes a returned value.

How non-termination is represented:

- The real engine polls forever with no timeout. Here the packets are a
  finite feed.
- A dispatch still waiting when the feed runs out ends in `FeedExhausted`,
  meaning "would still be waiting". The wrappers report such a dispatch as
  `NeverReturns`, and the operations as `Hangs`.
- The lemmas `DispatchIgnoresLaterPackets` and `AwaitWaitsPastFeed` justify
  this:
  - a verdict reached on a feed stays the same on any longer feed;
  - a dispatch that waits at the end of a feed can only end later.

## Model

| member | source | states |
|---|---|---|
| Correlation.RtCommandResult.HasError | qtmc/src/main.cpp:26-29 | A result is an error when an unrecognised echo, a failed send or a packet error was recorded. |
| Correlation.RtCommandResult.HasSatisfiedResult | qtmc/src/main.cpp:31-34 | A result is satisfied when it is no error and a trigger matched; so satisfied and error exclude each other. |
| Correlation.Receive | qtmc/src/main.cpp:61-83 | Each packet goes into its own list alone: an error packet adds exactly one entry to the errors, whose newest is its text; a command packet one to the echoes, whose newest is its text; an event packet one to the events, whose newest is its code. The other two lists are left unchanged, and an empty poll and the ignored packet kinds (XML, data, no-more-data, C3D, discover, QTM file, none) change none. The lists only grow. |
| Correlation.NewestResultString | qtmc/src/main.cpp:96 | The echo compared is the newest one received, and "" when none has arrived. |
| Correlation.Completes | qtmc/src/main.cpp:100-101 | A trigger completes when its text is the echo and its event is EventNone or among all events received so far. |
| Correlation.FindCompletingTrigger | qtmc/src/main.cpp:99-102 | A returned index is the first trigger, in table order, that completes: its text is the echo, and its event is EventNone or has been seen. No index is returned exactly when no trigger in the table completes. |
| Correlation.FindTriggerFor | qtmc/src/main.cpp:114-116 | A returned index is the first trigger whose text is the echo. No index is returned exactly when no trigger's text is the echo. |
| Correlation.Evaluate | qtmc/src/main.cpp:89-125 | receivedPacketError is set iff a packet error was received. Its errorString is the newest error, and it excludes every other flag. receivedMatchingTrigger is set iff there is no packet error and some trigger completes on the newest echo ("" if none). receivedErrorString is set iff there is no packet error, the newest echo is non-empty and no trigger's text equals it; its errorString is that echo. A match sets that flag alone and leaves the error text "". A non-terminal evaluation (including a recognised echo whose event is missing) sets no flag. |
| Correlation.Await | qtmc/src/main.cpp:50-127 | A dispatch that returns does so after at least one more poll and within the remaining feed, with a terminal result (the negated loop guard). |
| Correlation.Poll | qtmc/src/main.cpp:52-126 | One pass of the loop body: a return happens at this poll or later within the feed, and always with a terminal result. |
| Correlation.Dispatch | qtmc/src/main.cpp:37-50 | A returned dispatch consumed no more than the feed. Its result satisfies has_error() or has_satisfied_result(), and exactly one of the two. A dispatch whose send succeeded returns only after at least one poll. |
| Correlation.SendCommandAwaitEvent | qtmc/src/main.cpp:37-129 | The loop computes exactly `Dispatch`. A failed send returns at once, before any poll: sendCommandFailed is set and the error text is "Send command failed.". |
| CorrelationProperties.AwaitFromPrefix | qtmc/src/main.cpp:50-127 | Resuming after polls that were not terminal, the dispatch returns at the first terminal poll, with the evaluation of everything received up to it; or no later poll is terminal. |
| CorrelationProperties.DispatchEndsAtFirstTerminalPoll | qtmc/src/main.cpp:50-128 | After a successful send, the dispatch returns at the first poll that received a packet and whose evaluation of everything received is terminal. It returns that evaluation. It never returns iff no poll of the feed is terminal. |
| CorrelationProperties.ErrorPacketEndsDispatch | qtmc/src/main.cpp:64-93 | A packet error ends the dispatch at that poll at the latest. If the dispatch was still waiting, it reports receivedPacketError with that error's text, whatever echoes and events came earlier. |
| CorrelationProperties.ErrorsComeFromErrorPackets | qtmc/src/main.cpp:64-65 | Every accumulated packet error comes from an error packet of the feed. |
| CorrelationProperties.NoErrorBeforeEnd | qtmc/src/main.cpp:89-93 | While a dispatch is still waiting, it has accumulated no packet error. |
| CorrelationProperties.UnrecognisedEchoEndsDispatch | qtmc/src/main.cpp:109-124 | A non-empty echo that names no trigger ends the dispatch at that poll at the latest. If the dispatch was still waiting, it reports receivedErrorString with the echo as its text. |
| CorrelationProperties.UnlistedFirstEchoFails | qtmc/src/main.cpp:109-124 | For any table, a first echo that no trigger names fails the dispatch at the first poll. The result has exactly receivedErrorString set, with the echo as its text. |
| CorrelationProperties.EventBeforeOrAfterEcho | qtmc/src/main.cpp:96-107 | For any trigger in the table, its echo followed by its event, or its event followed by its echo, both end the dispatch satisfied. |
| CorrelationProperties.EchoOrEventFirst | qtmc/src/main.cpp:96-107 | For one order of an echo and its trigger's event, the dispatch ends satisfied by the second packet. |
| CorrelationProperties.AwaitIgnoresLaterPackets | qtmc/src/main.cpp:50-128 | Once a dispatch has returned on a feed, appending packets changes nothing. |
| CorrelationProperties.AwaitWaitsPastFeed | qtmc/src/main.cpp:50-59 | A dispatch still waiting at the end of a feed returns, on a longer feed, only after the end of the original feed. |
| CorrelationProperties.DispatchIgnoresLaterPackets | qtmc/src/main.cpp:37-128 | A whole dispatch's verdict is the same on every extension of a feed on which it returned. One that waited returns later or not at all. |
| CorrelationProperties.AwaitCountsPolls | qtmc/src/main.cpp:50-59 | Starting with more polls already made shifts the return poll by that many and changes nothing else. |
| CorrelationProperties.AwaitSkipsEmptyPoll | qtmc/src/main.cpp:56-59 | An empty poll inserted anywhere in the remaining feed changes no result or verdict. It only delays by one a return that comes after it. |
| CorrelationProperties.EmptyPollChangesNothing | qtmc/src/main.cpp:56-59 | The same for a whole dispatch. A failed send ignores the feed entirely. |
| Commands.OperationResultToString | qtmc/src/main.cpp:143-159 | The text is "Ok." exactly for Ok. Every failure category's text is a sentence that starts "Failed " and ends with a period. |
| Commands.OperationResultToStringInjective | qtmc/src/main.cpp:146-158 | Distinct categories have distinct texts. |
| Commands.Report | qtmc/src/main.cpp:167-176 | Nothing is written for Ok. For a failure, the category text, the message in parentheses and a newline are written. |
| Commands.CloseTriggers | qtmc/src/main.cpp:223-227 | Close completes on "Closing connection" with the connection-closed event, or on "No connection to close" or "File closed" alone. |
| Commands.NewTriggers | qtmc/src/main.cpp:245-248 | New completes on "Creating new connection" with the connected event, or on "Already connected" alone. |
| Commands.StartTriggers | qtmc/src/main.cpp:263-266 | Start completes on "Starting measurement" with the capture-started event, or on "Measurement is already running" alone. |
| Commands.StopTriggers | qtmc/src/main.cpp:306-309 | Stop completes on "No measurement is running" alone, or on "Stopping measurement" with the capture-stopped event. |
| Commands.TablesAreUnambiguous | qtmc/src/main.cpp:223-309 | In each of the four tables the texts are non-empty and pairwise distinct: an echo names at most one trigger, and the "" of "no echo yet" completes none. |
| Commands.CommandTakeControl | qtmc/src/main.cpp:188-213 | It connects, then asks for control only if the client is not controlling yet. It succeeds iff connect succeeds and the client is already controlling or is granted control. On success the result is untouched. Otherwise the result is FailedToConnect or FailedToTakeControl with the library's error text. |
| Commands.CommandReleaseControl | qtmc/src/main.cpp:215-219 | Adds a release request to the log and changes nothing else. |
| Commands.CommandClose | qtmc/src/main.cpp:221-241 | Dispatches "Close" with its three-entry table. Succeeds iff that dispatch is satisfied, leaving the result untouched. Otherwise the result is FailedToCloseMeasurement with the dispatch's error text. Never returns iff the dispatch waits forever. Consumes the dispatch's polls and logs the command. |
| Commands.CommandNew | qtmc/src/main.cpp:243-259 | The same for "New", with its table and FailedToCreateNewMeasurement. |
| Commands.CommandStart | qtmc/src/main.cpp:261-277 | The same for "Start", with its table and FailedToStartCapture. |
| Commands.CommandSave | qtmc/src/main.cpp:279-290 | Succeeds iff the library saves. On success the result is untouched. Otherwise the result is FailedToSaveMeasurement with the library's error text. |
| Commands.CommandLoad | qtmc/src/main.cpp:292-302 | Succeeds iff the library loads. On success the result is untouched. Otherwise the result is FailedToLoadMeasurement with the library's error text. |
| Commands.CommandStop | qtmc/src/main.cpp:304-320 | The same as Close, for "Stop", with its table and FailedToStopCapture. |
| Commands.StartWaitsForCaptureStarted | qtmc/src/main.cpp:263-266 | "Starting measurement" alone keeps the dispatch waiting. Followed by the capture-started event, it satisfies the dispatch. |
| Commands.NewAcceptsBothReplies | qtmc/src/main.cpp:245-248 | The connected event before "Creating new connection" satisfies New. "Already connected" alone satisfies it at the first poll. |
| Commands.StopAcceptsEitherOrder | qtmc/src/main.cpp:306-309 | "Stopping measurement" and the capture-stopped event satisfy Stop in either order. |
| Operations.StartCapture | qtmc/src/main.cpp:322-332 | Exactly StartCaptureSpec: a failed handshake returns its result. Otherwise Close, New and Start are dispatched in that order, each over the packets the previous one left. The first that waits forever hangs the operation. The first that fails returns its category with its dispatch's error text, and nothing after it is requested. When all three are satisfied, control is released and the default result returned. |
| Operations.StartCaptureOutcomes | qtmc/src/main.cpp:322-332 | From that specification: the category is one of the six start_capture can produce, and Ok comes with the default result. |
| Operations.StartCaptureLog | qtmc/src/main.cpp:326-330 | From that specification: the requests are the handshake, then Close, New and Start up to and including the first that fails, or all three and a release. |
| Operations.SaveMeasurement | qtmc/src/main.cpp:334-343 | Exactly SaveMeasurementSpec: after the handshake, Stop is dispatched and its result ignored; the operation hangs only if Stop waits forever. The save follows in every case. A successful save releases control and returns the default result; a refused one returns FailedToSaveMeasurement with the library's text. |
| Operations.SaveMeasurementOutcomes | qtmc/src/main.cpp:334-343 | From that specification: the category is one of four, Ok exactly when the save succeeds after the handshake, and the requests start with a connect. |
| Operations.StopCapture | qtmc/src/main.cpp:345-354 | Exactly StopCaptureSpec: after the handshake, Stop is dispatched. Waiting forever hangs the operation, and a failure returns FailedToStopCapture with its error text, requesting nothing more. After a satisfied Stop, an empty filename releases control with the default result. Otherwise the capture is saved: success releases control with the default result, and a refusal returns FailedToSaveMeasurement with the library's text. |
| Operations.StopCaptureOutcomes | qtmc/src/main.cpp:345-354 | From that specification: the category is one of five, a save failure needs a filename and carries the library's text, after a satisfied Stop the result is Ok iff no save was needed or it succeeded, and the requests start with a connect. |
| Operations.HandshakeOpensSession | qtmc/src/main.cpp:189-204 | A request log that begins with the handshake begins with a connect. |
| Operations.AppLogic | qtmc/src/main.cpp:357-405 | "start" gives exactly StartCaptureSpec, "stop" StopCaptureSpec and "save" with a filename SaveMeasurementSpec, each with that operation's categories and a connect requested. Any other operation, or "save" without a filename, requests nothing and succeeds with the default result. Success iff the final result is Ok. |

## Left out

- The protocol library's calls are not modelled beyond their answers, because the library is foreign. Its framing, sockets and packet decoding are out too; `RTProtocol.h` is not part of this model. The engine sees already classified packets. Each command's send either succeeds or fails, according to the link's set of refused commands.
- `GetErrorString`: the link has a single error text, reported by every failing library call.
- Timing of the busy-wait poll loop: only the order of polls is modelled, over a finite feed. A dispatch still waiting at the end of the feed is reported as never returning.
- `command_release_control` calls release and disconnect; the model logs the pair as one `Release` request. The disconnect that the protocol object's destructor makes on early returns is not modelled.
- `ConnectionOptions` (host, port, password, protocol version): configuration constants with no effect on the modelled behaviour.
- `main`: command-line parsing by a third-party library, plus writing the error line to stderr. `Report` models the line's text, and `AppLogic`'s `success` models the exit status.
- The help text printed for an unknown operation: console output only. `AppLogic` states that nothing is requested and the default result stands.
- The `default` branch of `operation_result_to_string` ("Failed."): no enumerator reaches it.
