/** The per-command layer: operation result categories, the command result
    record handed back to the command line, and one wrapper per remote
    command, each with its own trigger table and failure category.

    The protocol object is a `Link` value: what its foreign calls will
    answer (connect, take control, send, save, the packets to be received),
    and the log of requests the client has made on it so far. A wrapper
    returns the link as it leaves it. */
module Commands {
  import opened Packets
  import opened Correlation
  import opened CorrelationProperties

  datatype OperationResult =
    | Ok
    | FailedToConnect
    | FailedToTakeControl
    | FailedToStartCapture
    | FailedToCreateNewMeasurement
    | FailedToCloseMeasurement
    | FailedToSaveMeasurement
    | FailedToLoadMeasurement
    | FailedToStopCapture

  /** The text shown for each category: "Ok." for `Ok`, a sentence
      starting "Failed " for every failure. */
  function OperationResultToString(result: OperationResult): (s: string)
    ensures s == "Ok." <==> result == Ok
    ensures result != Ok ==> |s| > 7 && s[..7] == "Failed " && s[|s| - 1] == '.'
  {
    match result
    case Ok => "Ok."
    case FailedToConnect => "Failed to connect."
    case FailedToTakeControl => "Failed to take control."
    case FailedToStartCapture => "Failed to start capture."
    case FailedToCreateNewMeasurement => "Failed to create new measurement."
    case FailedToSaveMeasurement => "Failed to save measurement."
    case FailedToLoadMeasurement => "Failed to load measurement."
    case FailedToStopCapture => "Failed to stop capture."
    case FailedToCloseMeasurement => "Failed to close measurement."
  }

  /** No two categories share a text. */
  lemma OperationResultToStringInjective(a: OperationResult, b: OperationResult)
    ensures a != b ==> OperationResultToString(a) != OperationResultToString(b)
  {
  }

  datatype CommandResult = CommandResult(result: OperationResult, errorMessage: string)

  const DefaultResult := CommandResult(Ok, "")

  /** What the command line writes to its error stream for a result:
      nothing for `Ok`, otherwise the category text and the message in
      parentheses on one line. */
  function Report(r: CommandResult): (s: string)
    ensures s == "" <==> r.result == Ok
    ensures r.result != Ok ==> s == OperationResultToString(r.result) + " (" + r.errorMessage + ")\n"
  {
    if r.result == Ok then "" else OperationResultToString(r.result) + " (" + r.errorMessage + ")\n"
  }

  /** A request the client makes on the protocol object. */
  datatype Request =
    | Connect
    | TakeControl
    | SendCommand(command: string)
    | SaveCapture(filename: string)
    | LoadCapture(filename: string)
    | Release

  /** What the protocol object will answer, and what has been asked of it. */
  datatype Link = Link(
    connects: bool,                // Connect succeeds
    controlling: bool,             // IsControlling after connecting
    grantsControl: bool,           // TakeControl succeeds
    refusedCommands: set<string>,  // SendCommand fails for these texts
    savesCapture: bool,            // SaveCapture succeeds
    loadsCapture: bool,            // LoadCapture succeeds
    errorText: string,             // what GetErrorString reports
    packets: seq<Packet>,          // what successive polls receive
    requests: seq<Request>)        // requests made so far, in order

  /** A wrapper either returns (with its bool, the result record and the
      link as it leaves it) or waits forever for its dispatch. */
  datatype Call = Completed(ok: bool, result: CommandResult, link: Link) | NeverReturns

  /** The link after sending `command` and awaiting it with `triggers`. */
  predicate Answers(link: Link, command: string, triggers: seq<Trigger>, failure: OperationResult, result: CommandResult, c: Call) {
    var d := Dispatch(command !in link.refusedCommands, link.packets, triggers);
    (c.NeverReturns? <==> d.FeedExhausted?) &&
    (c.Completed? ==>
      (c.ok <==> d.result.HasSatisfiedResult()) &&
      (c.ok ==> c.result == result) &&
      (!c.ok ==> c.result == CommandResult(failure, d.result.errorString)) &&
      c.link == link.(packets := link.packets[d.consumed..], requests := link.requests + [SendCommand(command)]))
  }

  const CloseTriggers := [
    Trigger("Closing connection", EventConnectionClosed),
    Trigger("No connection to close", EventNone),
    Trigger("File closed", EventNone)]

  const NewTriggers := [
    Trigger("Creating new connection", EventConnected),
    Trigger("Already connected", EventNone)]

  const StartTriggers := [
    Trigger("Starting measurement", EventCaptureStarted),
    Trigger("Measurement is already running", EventNone)]

  const StopTriggers := [
    Trigger("No measurement is running", EventNone),
    Trigger("Stopping measurement", EventCaptureStopped)]

  /** No two triggers of a table have the same text. */
  predicate DistinctTexts(triggers: seq<Trigger>) {
    forall i, j :: 0 <= i < j < |triggers| ==> triggers[i].resultString != triggers[j].resultString
  }

  /** In every command's table the texts are non-empty and distinct, so an
      echo names at most one trigger and the empty "no echo yet" text never
      completes one. */
  lemma TablesAreUnambiguous()
    ensures forall table :: table in [CloseTriggers, NewTriggers, StartTriggers, StopTriggers] ==>
      DistinctTexts(table) && forall t :: t in table ==> t.resultString != ""
  {
  }

  /** The requests connecting and taking control make: a connect, then a
      take-control request only when the client is not controlling yet. */
  function HandshakeRequests(link: Link): seq<Request> {
    if !link.connects || link.controlling then [Connect] else [Connect, TakeControl]
  }

  /** The handshake succeeds. */
  predicate TakesControl(link: Link) {
    link.connects && (link.controlling || link.grantsControl)
  }

  method CommandTakeControl(link: Link, result: CommandResult) returns (c: Call)
    ensures c.Completed? && c.link == link.(requests := link.requests + HandshakeRequests(link))
    ensures c.ok <==> TakesControl(link)
    ensures c.ok ==> c.result == result
    ensures !link.connects ==> c.result == CommandResult(FailedToConnect, link.errorText)
    ensures link.connects && !c.ok ==> c.result == CommandResult(FailedToTakeControl, link.errorText)
  {
    var connected := link.(requests := link.requests + [Connect]);
    if !link.connects {
      return Completed(false, CommandResult(FailedToConnect, link.errorText), connected);
    }
    if !link.controlling {
      var asked := connected.(requests := connected.requests + [TakeControl]);
      if !link.grantsControl {
        return Completed(false, CommandResult(FailedToTakeControl, link.errorText), asked);
      }
      return Completed(true, result, asked);
    }
    c := Completed(true, result, connected);
  }

  method CommandReleaseControl(link: Link) returns (link': Link)
    ensures link'.requests == link.requests + [Release]
    ensures link' == link.(requests := link'.requests)
  {
    link' := link.(requests := link.requests + [Release]);
  }

  method CommandClose(link: Link, result: CommandResult) returns (c: Call)
    ensures Answers(link, "Close", CloseTriggers, FailedToCloseMeasurement, result, c)
  {
    var d := SendCommandAwaitEvent("Close" !in link.refusedCommands, link.packets, CloseTriggers);
    if d.FeedExhausted? {
      return NeverReturns;
    }
    var rest := link.(packets := link.packets[d.consumed..], requests := link.requests + [SendCommand("Close")]);
    if d.result.HasError() {
      return Completed(false, CommandResult(FailedToCloseMeasurement, d.result.errorString), rest);
    }
    c := Completed(true, result, rest);
  }

  method CommandNew(link: Link, result: CommandResult) returns (c: Call)
    ensures Answers(link, "New", NewTriggers, FailedToCreateNewMeasurement, result, c)
  {
    var d := SendCommandAwaitEvent("New" !in link.refusedCommands, link.packets, NewTriggers);
    if d.FeedExhausted? {
      return NeverReturns;
    }
    var rest := link.(packets := link.packets[d.consumed..], requests := link.requests + [SendCommand("New")]);
    if d.result.HasError() {
      return Completed(false, CommandResult(FailedToCreateNewMeasurement, d.result.errorString), rest);
    }
    c := Completed(true, result, rest);
  }

  method CommandStart(link: Link, result: CommandResult) returns (c: Call)
    ensures Answers(link, "Start", StartTriggers, FailedToStartCapture, result, c)
  {
    var d := SendCommandAwaitEvent("Start" !in link.refusedCommands, link.packets, StartTriggers);
    if d.FeedExhausted? {
      return NeverReturns;
    }
    var rest := link.(packets := link.packets[d.consumed..], requests := link.requests + [SendCommand("Start")]);
    if d.result.HasError() {
      return Completed(false, CommandResult(FailedToStartCapture, d.result.errorString), rest);
    }
    c := Completed(true, result, rest);
  }

  method CommandStop(link: Link, result: CommandResult) returns (c: Call)
    ensures Answers(link, "Stop", StopTriggers, FailedToStopCapture, result, c)
  {
    var d := SendCommandAwaitEvent("Stop" !in link.refusedCommands, link.packets, StopTriggers);
    if d.FeedExhausted? {
      return NeverReturns;
    }
    var rest := link.(packets := link.packets[d.consumed..], requests := link.requests + [SendCommand("Stop")]);
    if d.result.HasError() {
      return Completed(false, CommandResult(FailedToStopCapture, d.result.errorString), rest);
    }
    c := Completed(true, result, rest);
  }

  method CommandSave(link: Link, filename: string, result: CommandResult) returns (c: Call)
    ensures c.Completed? && c.link == link.(requests := link.requests + [SaveCapture(filename)])
    ensures c.ok <==> link.savesCapture
    ensures c.result == if c.ok then result else CommandResult(FailedToSaveMeasurement, link.errorText)
  {
    var asked := link.(requests := link.requests + [SaveCapture(filename)]);
    if !link.savesCapture {
      return Completed(false, CommandResult(FailedToSaveMeasurement, link.errorText), asked);
    }
    c := Completed(true, result, asked);
  }

  /** Loading a capture file; no operation uses it. */
  method CommandLoad(link: Link, filename: string, result: CommandResult) returns (c: Call)
    ensures c.Completed? && c.link == link.(requests := link.requests + [LoadCapture(filename)])
    ensures c.ok <==> link.loadsCapture
    ensures c.result == if c.ok then result else CommandResult(FailedToLoadMeasurement, link.errorText)
  {
    var asked := link.(requests := link.requests + [LoadCapture(filename)]);
    if !link.loadsCapture {
      return Completed(false, CommandResult(FailedToLoadMeasurement, link.errorText), asked);
    }
    c := Completed(true, result, asked);
  }

  /** Starting: an echo of "Starting measurement" alone keeps the dispatch
      waiting; the capture-started event after it completes it. */
  lemma StartWaitsForCaptureStarted()
    ensures Dispatch(true, [CommandPacket("Starting measurement")], StartTriggers) == FeedExhausted
    ensures var d := Dispatch(true, [CommandPacket("Starting measurement"), EventPacket(EventCaptureStarted)], StartTriggers);
      d.Returned? && d.result.HasSatisfiedResult()
  {
    var echo := Observed([], ["Starting measurement"], []);
    assert !Completes(StartTriggers[0], "Starting measurement", []);
    assert !Evaluate(echo, StartTriggers).IsTerminal();
    assert [CommandPacket("Starting measurement")][1..] == [];
    EventBeforeOrAfterEcho(StartTriggers, "Starting measurement", EventCaptureStarted);
  }

  /** Creating a measurement: the connected event may come before the echo,
      and "Already connected" needs no event. */
  lemma NewAcceptsBothReplies()
    ensures var d := Dispatch(true, [EventPacket(EventConnected), CommandPacket("Creating new connection")], NewTriggers);
      d.Returned? && d.result.HasSatisfiedResult()
    ensures Dispatch(true, [CommandPacket("Already connected")], NewTriggers) == Returned(Initial.(receivedMatchingTrigger := true), 1)
  {
    EventBeforeOrAfterEcho(NewTriggers, "Creating new connection", EventConnected);
    assert Completes(NewTriggers[1], "Already connected", []);
    assert [CommandPacket("Already connected")][1..] == [];
  }

  /** Stopping: "Stopping measurement" and the capture-stopped event
      complete the dispatch in either order. */
  lemma StopAcceptsEitherOrder()
    ensures var d := Dispatch(true, [CommandPacket("Stopping measurement"), EventPacket(EventCaptureStopped)], StopTriggers);
      d.Returned? && d.result.HasSatisfiedResult()
    ensures var d := Dispatch(true, [EventPacket(EventCaptureStopped), CommandPacket("Stopping measurement")], StopTriggers);
      d.Returned? && d.result.HasSatisfiedResult()
  {
    EventBeforeOrAfterEcho(StopTriggers, "Stopping measurement", EventCaptureStopped);
  }
}
