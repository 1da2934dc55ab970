/** The capture lifecycle operations the command line offers, each a
    sequence of requests on a fresh protocol object, and the dispatch on the
    operation's name. start_capture and stop_capture stop at the first
    failing step; save_measurement ignores a failed Stop and saves anyway;
    stop_capture saves only when a file name is given. */
module Operations {
  import opened Correlation
  import opened Commands

  /** An operation either returns its result record (with the link as it
      leaves it) or never returns because one of its dispatches waits
      forever. */
  datatype Operation = Finished(result: CommandResult, link: Link) | Hangs

  const StartCaptureResults: set<OperationResult> := {
    Ok, FailedToConnect, FailedToTakeControl,
    FailedToCloseMeasurement, FailedToCreateNewMeasurement, FailedToStartCapture}

  const SaveMeasurementResults: set<OperationResult> := {
    Ok, FailedToConnect, FailedToTakeControl, FailedToSaveMeasurement}

  const StopCaptureResults: set<OperationResult> := {
    Ok, FailedToConnect, FailedToTakeControl, FailedToStopCapture, FailedToSaveMeasurement}

  /** The requests on `link'` begin with those on `link` and a connect. */
  predicate OpensSession(link: Link, link': Link) {
    link.requests + [Connect] <= link'.requests
  }

  /** A log that starts with the handshake opens a session. */
  lemma HandshakeOpensSession(link: Link, link': Link, steps: seq<Request>)
    requires link'.requests == link.requests + HandshakeRequests(link) + steps
    ensures OpensSession(link, link')
  {
  }

  /** The result of a failed handshake, as every operation returns it. */
  function HandshakeFailure(link: Link): Operation {
    Finished(
      CommandResult(if link.connects then FailedToTakeControl else FailedToConnect, link.errorText),
      link.(requests := link.requests + HandshakeRequests(link)))
  }

  /** What start_capture does on `link`: after the handshake, Close, New and
      Start are dispatched in turn, each over the packets the previous one
      left; the first that waits forever hangs the operation, the first that
      fails decides the result, and only when all three are satisfied is
      control released and the default result returned. */
  predicate StartCaptureSpec(link: Link, o: Operation) {
    if !TakesControl(link) then o == HandshakeFailure(link)
    else
      var ready := link.(requests := link.requests + HandshakeRequests(link));
      var close := Dispatch("Close" !in link.refusedCommands, ready.packets, CloseTriggers);
      if close.FeedExhausted? then o.Hangs?
      else
        var closed := ready.(packets := ready.packets[close.consumed..], requests := ready.requests + [SendCommand("Close")]);
        if close.result.HasError() then
          o == Finished(CommandResult(FailedToCloseMeasurement, close.result.errorString), closed)
        else
          var create := Dispatch("New" !in link.refusedCommands, closed.packets, NewTriggers);
          if create.FeedExhausted? then o.Hangs?
          else
            var created := closed.(packets := closed.packets[create.consumed..], requests := closed.requests + [SendCommand("New")]);
            if create.result.HasError() then
              o == Finished(CommandResult(FailedToCreateNewMeasurement, create.result.errorString), created)
            else
              var start := Dispatch("Start" !in link.refusedCommands, created.packets, StartTriggers);
              if start.FeedExhausted? then o.Hangs?
              else
                var started := created.(packets := created.packets[start.consumed..], requests := created.requests + [SendCommand("Start")]);
                if start.result.HasError() then
                  o == Finished(CommandResult(FailedToStartCapture, start.result.errorString), started)
                else
                  o == Finished(DefaultResult, started.(requests := started.requests + [Release]))
  }

  /** The requests start_capture makes after the handshake, by result: every
      command up to and including the one that failed, or all three and a
      release. */
  function StartCaptureSteps(result: OperationResult): seq<Request> {
    var close, create, start := SendCommand("Close"), SendCommand("New"), SendCommand("Start");
    match result
    case FailedToCloseMeasurement => [close]
    case FailedToCreateNewMeasurement => [close, create]
    case FailedToStartCapture => [close, create, start]
    case Ok => [close, create, start, Release]
    case _ => []
  }

  /** Connect, take control, then close, create a new measurement and start
      capturing; the first failing step decides the result and nothing
      after it is requested. Control is released only after a success. */
  method StartCapture(link: Link) returns (o: Operation)
    ensures StartCaptureSpec(link, o)
  {
    var result := DefaultResult;
    var c := CommandTakeControl(link, result);
    if !c.ok { return Finished(c.result, c.link); }
    c := CommandClose(c.link, c.result);
    if c.NeverReturns? { return Hangs; }
    if !c.ok { return Finished(c.result, c.link); }
    c := CommandNew(c.link, c.result);
    if c.NeverReturns? { return Hangs; }
    if !c.ok { return Finished(c.result, c.link); }
    c := CommandStart(c.link, c.result);
    if c.NeverReturns? { return Hangs; }
    if !c.ok { return Finished(c.result, c.link); }
    var released := CommandReleaseControl(c.link);
    o := Finished(c.result, released);
  }

  /** Whatever start_capture returns is one of its six categories, and Ok
      comes with the default result. */
  lemma StartCaptureOutcomes(link: Link, o: Operation)
    requires StartCaptureSpec(link, o)
    ensures o.Finished? ==> o.result.result in StartCaptureResults
    ensures o.Finished? && o.result.result == Ok ==> o.result == DefaultResult
  {
  }

  /** The requests start_capture makes are the handshake, then the commands
      up to and including the first that failed, or all three and a
      release. */
  lemma StartCaptureLog(link: Link, o: Operation)
    requires StartCaptureSpec(link, o)
    ensures o.Finished? ==> o.link.requests == link.requests + HandshakeRequests(link) + StartCaptureSteps(o.result.result)
  {
  }

  /** What save_measurement does on `link`: after the handshake, Stop is
      dispatched and its outcome ignored unless it waits forever; the save
      follows in every case and alone decides the result. */
  predicate SaveMeasurementSpec(link: Link, filename: string, o: Operation) {
    if !TakesControl(link) then o == HandshakeFailure(link)
    else
      var ready := link.(requests := link.requests + HandshakeRequests(link));
      var stop := Dispatch("Stop" !in link.refusedCommands, ready.packets, StopTriggers);
      if stop.FeedExhausted? then o.Hangs?
      else
        var stopped := ready.(packets := ready.packets[stop.consumed..], requests := ready.requests + [SendCommand("Stop")]);
        var saved := stopped.(requests := stopped.requests + [SaveCapture(filename)]);
        if link.savesCapture then
          o == Finished(DefaultResult, saved.(requests := saved.requests + [Release]))
        else
          o == Finished(CommandResult(FailedToSaveMeasurement, link.errorText), saved)
  }

  /** Connect, take control, stop any running capture (its failure is
      ignored: only the stop is wanted), then save under `filename`. The
      result depends on the save alone. */
  method SaveMeasurement(link: Link, filename: string) returns (o: Operation)
    ensures SaveMeasurementSpec(link, filename, o)
  {
    var result, discarded := DefaultResult, DefaultResult;
    var c := CommandTakeControl(link, result);
    if !c.ok { return Finished(c.result, c.link); }
    var stop := CommandStop(c.link, discarded);
    if stop.NeverReturns? { return Hangs; }
    // whether the stop failed or not, go on to save
    var save := CommandSave(stop.link, filename, c.result);
    if !save.ok { return Finished(save.result, save.link); }
    var released := CommandReleaseControl(save.link);
    o := Finished(save.result, released);
  }

  /** Whatever save_measurement returns is one of its four categories, and
      after the handshake it is Ok exactly when the save succeeds. */
  lemma SaveMeasurementOutcomes(link: Link, filename: string, o: Operation)
    requires SaveMeasurementSpec(link, filename, o)
    ensures o.Finished? ==> o.result.result in SaveMeasurementResults
    ensures o.Finished? && TakesControl(link) ==> (o.result.result == Ok <==> link.savesCapture)
    ensures o.Finished? ==> OpensSession(link, o.link)
  {
  }

  /** What stop_capture does on `link`: after the handshake, Stop is
      dispatched; waiting forever hangs the operation and a failure decides
      the result; after a satisfied Stop the capture is saved when a file
      name is given, and a refused save decides the result; otherwise
      control is released and the default result returned. */
  predicate StopCaptureSpec(link: Link, filename: string, o: Operation) {
    if !TakesControl(link) then o == HandshakeFailure(link)
    else
      var ready := link.(requests := link.requests + HandshakeRequests(link));
      var stop := Dispatch("Stop" !in link.refusedCommands, ready.packets, StopTriggers);
      if stop.FeedExhausted? then o.Hangs?
      else
        var stopped := ready.(packets := ready.packets[stop.consumed..], requests := ready.requests + [SendCommand("Stop")]);
        if stop.result.HasError() then
          o == Finished(CommandResult(FailedToStopCapture, stop.result.errorString), stopped)
        else if filename == "" then
          o == Finished(DefaultResult, stopped.(requests := stopped.requests + [Release]))
        else
          var saved := stopped.(requests := stopped.requests + [SaveCapture(filename)]);
          if link.savesCapture then
            o == Finished(DefaultResult, saved.(requests := saved.requests + [Release]))
          else
            o == Finished(CommandResult(FailedToSaveMeasurement, link.errorText), saved)
  }

  /** Connect, take control, stop the capture and, when a file name is
      given, save it; the first failing step decides the result. */
  method StopCapture(link: Link, filename: string) returns (o: Operation)
    ensures StopCaptureSpec(link, filename, o)
  {
    var result := DefaultResult;
    var c := CommandTakeControl(link, result);
    if !c.ok { return Finished(c.result, c.link); }
    c := CommandStop(c.link, c.result);
    if c.NeverReturns? { return Hangs; }
    if !c.ok { return Finished(c.result, c.link); }
    if filename != "" {
      c := CommandSave(c.link, filename, c.result);
      if !c.ok { return Finished(c.result, c.link); }
    }
    var released := CommandReleaseControl(c.link);
    o := Finished(c.result, released);
  }

  /** Whatever stop_capture returns is one of its five categories; a save
      failure needs a file name; and after a satisfied Stop the result is
      Ok exactly when no save was needed or the save succeeded. */
  lemma StopCaptureOutcomes(link: Link, filename: string, o: Operation)
    requires StopCaptureSpec(link, filename, o)
    ensures o.Finished? ==> o.result.result in StopCaptureResults
    ensures o.Finished? && o.result.result == FailedToSaveMeasurement ==> filename != "" && o.result.errorMessage == link.errorText
    ensures var stop := Dispatch("Stop" !in link.refusedCommands, link.packets, StopTriggers);
      TakesControl(link) && stop.Returned? && stop.result.HasSatisfiedResult() ==>
        o.Finished? && (o.result.result == Ok <==> filename == "" || link.savesCapture)
    ensures o.Finished? ==> OpensSession(link, o.link)
  {
  }

  /** Run the operation named on the command line. An unknown name, or
      "save" without a file name, only shows the usage text: nothing is
      requested and the default result stands, which counts as success.
      `success` is what the program's exit status reports. */
  method AppLogic(link: Link, operation: string, filename: string) returns (success: bool, o: Operation)
    ensures o.Finished? ==> (success <==> o.result.result == Ok)
    ensures o.Hangs? ==> !success
    ensures operation == "start" ==> StartCaptureSpec(link, o)
    ensures operation == "stop" ==> StopCaptureSpec(link, filename, o)
    ensures operation == "save" && filename != "" ==> SaveMeasurementSpec(link, filename, o)
    ensures operation != "start" && operation != "stop" && (operation != "save" || filename == "") ==>
      success && o == Finished(DefaultResult, link)
    ensures operation == "start" && o.Finished? ==> o.result.result in StartCaptureResults
    ensures operation == "stop" && o.Finished? ==> o.result.result in StopCaptureResults
    ensures operation == "save" && filename != "" && o.Finished? ==> o.result.result in SaveMeasurementResults
    ensures (operation == "start" || operation == "stop" || (operation == "save" && filename != "")) && o.Finished? ==>
      OpensSession(link, o.link)
  {
    o := Finished(DefaultResult, link);
    if operation == "start" {
      o := StartCapture(link);
      StartCaptureOutcomes(link, o);
      StartCaptureLog(link, o);
      if o.Finished? {
        HandshakeOpensSession(link, o.link, StartCaptureSteps(o.result.result));
      }
    } else if operation == "stop" {
      o := StopCapture(link, filename);
      StopCaptureOutcomes(link, filename, o);
    } else if operation == "save" && filename != "" {
      o := SaveMeasurement(link, filename);
      SaveMeasurementOutcomes(link, filename, o);
    }
    success := o.Finished? && o.result.result == Ok;
  }
}
