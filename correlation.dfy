/** The command/trigger correlation engine: send one textual command, then
    drain classified packets until an error, a completing trigger or an
    unrecognised echo ends the dispatch.

    The real loop polls forever; here the packets the server will deliver are
    a finite feed, and a dispatch whose feed runs out while it is still
    waiting ends in `FeedExhausted` ("would still be waiting"). */
module Correlation {
  import opened Packets

  datatype Option<T> = None | Some(value: T)

  /** A caller-supplied acceptable outcome: the echoed command text, and the
      event that must also have been seen (`EventNone`: no event needed). */
  datatype Trigger = Trigger(resultString: string, eventType: Event)

  /** The flag record a dispatch returns. */
  datatype RtCommandResult = RtCommandResult(
    receivedMatchingTrigger: bool,
    receivedErrorString: bool,
    receivedPacketError: bool,
    sendCommandFailed: bool,
    errorString: string)
  {
    predicate HasError() {
      receivedErrorString || sendCommandFailed || receivedPacketError
    }

    predicate HasSatisfiedResult() {
      !HasError() && receivedMatchingTrigger
    }

    /** The negation of the engine's loop guard. */
    predicate IsTerminal() {
      HasError() || HasSatisfiedResult()
    }
  }

  /** A default-constructed result: no flag set, empty error text. */
  const Initial := RtCommandResult(false, false, false, false, "")

  const SendFailedText := "Send command failed."

  /** What a dispatch accumulates: every packet-error text, every echoed
      command text and every event, each in arrival order. */
  datatype Observed = Observed(packetErrors: seq<string>, resultStrings: seq<string>, events: seq<Event>)

  const NothingObserved := Observed([], [], [])

  /** The result of a dispatch over a finite feed: the terminal result and
      how many polls it took, or the feed ran out before a terminal result. */
  datatype AwaitOutcome = Returned(result: RtCommandResult, consumed: nat) | FeedExhausted

  /** Accumulate one polled packet. Each packet goes into its own list
      alone, as one new entry; an empty poll or an ignored packet type
      leaves all three as they were. */
  function Receive(obs: Observed, p: Packet): (o: Observed)
    ensures obs.packetErrors <= o.packetErrors && obs.resultStrings <= o.resultStrings && obs.events <= o.events
    ensures |o.packetErrors| + |o.resultStrings| + |o.events| <= |obs.packetErrors| + |obs.resultStrings| + |obs.events| + 1
    ensures p.NoPacket? || p.QuietPacket? ==> o == obs
    ensures p.ErrorPacket? ==> o.packetErrors != [] && o.packetErrors[|o.packetErrors| - 1] == p.errorText
    ensures p.CommandPacket? ==> NewestResultString(o) == p.commandText
    ensures p.EventPacket? ==> p.event in o.events && o.events[|o.events| - 1] == p.event
    ensures !p.ErrorPacket? ==> o.packetErrors == obs.packetErrors
    ensures !p.CommandPacket? ==> o.resultStrings == obs.resultStrings
    ensures !p.EventPacket? ==> o.events == obs.events
    ensures p.ErrorPacket? ==> |o.packetErrors| == |obs.packetErrors| + 1
    ensures p.CommandPacket? ==> |o.resultStrings| == |obs.resultStrings| + 1
    ensures p.EventPacket? ==> |o.events| == |obs.events| + 1
  {
    match p
    case NoPacket => obs
    case ErrorPacket(text) => obs.(packetErrors := obs.packetErrors + [text])
    case CommandPacket(text) => obs.(resultStrings := obs.resultStrings + [text])
    case EventPacket(evt) => obs.(events := obs.events + [evt])
    case QuietPacket(_) => obs
  }

  /** The echo the engine compares: the newest one, or "" if none arrived. */
  function NewestResultString(obs: Observed): (r: string)
    ensures obs.resultStrings == [] ==> r == ""
    ensures obs.resultStrings != [] ==> r in obs.resultStrings && r == obs.resultStrings[|obs.resultStrings| - 1]
  {
    if |obs.resultStrings| > 0 then obs.resultStrings[|obs.resultStrings| - 1] else ""
  }

  /** A trigger completes when the newest echo is its text and its event is
      not required or has been seen at any time during the dispatch. */
  predicate Completes(t: Trigger, resultString: string, events: seq<Event>) {
    resultString == t.resultString && (t.eventType == EventNone || t.eventType in events)
  }

  /** The first trigger, in declaration order, that completes. */
  function FindCompletingTrigger(triggers: seq<Trigger>, resultString: string, events: seq<Event>): (r: Option<nat>)
    ensures r.Some? ==> r.value < |triggers| && Completes(triggers[r.value], resultString, events)
    ensures r.Some? ==> forall j :: 0 <= j < r.value ==> !Completes(triggers[j], resultString, events)
    ensures r.None? <==> forall t :: t in triggers ==> !Completes(t, resultString, events)
  {
    if triggers == [] then None
    else if Completes(triggers[0], resultString, events) then Some(0)
    else
      match FindCompletingTrigger(triggers[1..], resultString, events)
      case None => None
      case Some(i) => Some(i + 1)
  }

  /** The first trigger, in declaration order, whose text is the echo. */
  function FindTriggerFor(triggers: seq<Trigger>, resultString: string): (r: Option<nat>)
    ensures r.Some? ==> r.value < |triggers| && triggers[r.value].resultString == resultString
    ensures r.Some? ==> forall j :: 0 <= j < r.value ==> triggers[j].resultString != resultString
    ensures r.None? <==> forall t :: t in triggers ==> t.resultString != resultString
  {
    if triggers == [] then None
    else if triggers[0].resultString == resultString then Some(0)
    else
      match FindTriggerFor(triggers[1..], resultString)
      case None => None
      case Some(i) => Some(i + 1)
  }

  /** One evaluation pass over everything observed so far, starting from a
      result with no flag set (the only state in which the loop evaluates).
      A packet error wins over everything; otherwise a completing trigger is
      a success; otherwise a non-empty echo that no trigger names is an
      error string; otherwise (no echo yet, or a recognised echo whose event
      has not arrived) nothing is set and the dispatch keeps waiting. */
  function Evaluate(obs: Observed, triggers: seq<Trigger>): (r: RtCommandResult)
    ensures !r.sendCommandFailed
    ensures r.receivedPacketError <==> obs.packetErrors != []
    ensures r.receivedPacketError ==>
      r.errorString == obs.packetErrors[|obs.packetErrors| - 1] && !r.receivedMatchingTrigger && !r.receivedErrorString
    ensures r.receivedMatchingTrigger <==>
      obs.packetErrors == [] && exists t :: t in triggers && Completes(t, NewestResultString(obs), obs.events)
    ensures r.receivedErrorString <==>
      obs.packetErrors == [] && NewestResultString(obs) != "" &&
      forall t :: t in triggers ==> t.resultString != NewestResultString(obs)
    ensures r.receivedErrorString ==> r.errorString == NewestResultString(obs)
    ensures r.receivedMatchingTrigger ==> r == Initial.(receivedMatchingTrigger := true)
    ensures !r.IsTerminal() ==> r == Initial
  {
    if |obs.packetErrors| > 0 then
      Initial.(receivedPacketError := true, errorString := obs.packetErrors[|obs.packetErrors| - 1])
    else
      var resultString := NewestResultString(obs);
      if FindCompletingTrigger(triggers, resultString, obs.events).Some? then
        Initial.(receivedMatchingTrigger := true)
      else if resultString != "" && FindTriggerFor(triggers, resultString).None? then
        Initial.(receivedErrorString := true, errorString := resultString)
      else
        Initial
  }

  /** The rest of a dispatch: `obs` is what has been accumulated, `rest` the
      packets still to be polled and `consumed` the polls made so far. While
      the feed lasts, the dispatch polls again. */
  function Await(obs: Observed, rest: seq<Packet>, triggers: seq<Trigger>, consumed: nat): (d: AwaitOutcome)
    ensures d.Returned? ==> consumed < d.consumed <= consumed + |rest| && d.result.IsTerminal()
    decreases |rest|, 1
  {
    if rest == [] then FeedExhausted else Poll(obs, rest, triggers, consumed)
  }

  /** One pass of the loop body. An empty poll skips evaluation; every
      other packet is accumulated and then evaluated, and a terminal result
      ends the dispatch at this poll. */
  function Poll(obs: Observed, rest: seq<Packet>, triggers: seq<Trigger>, consumed: nat): (d: AwaitOutcome)
    requires rest != []
    ensures d.Returned? ==> consumed < d.consumed <= consumed + |rest| && d.result.IsTerminal()
    decreases |rest|, 0
  {
    if rest[0].NoPacket? then Await(obs, rest[1..], triggers, consumed + 1)
    else
      var obs' := Receive(obs, rest[0]);
      var r := Evaluate(obs', triggers);
      if r.IsTerminal() then Returned(r, consumed + 1)
      else Await(obs', rest[1..], triggers, consumed + 1)
  }

  /** A whole dispatch: `sendOk` is what sending the command reported and
      `feed` the packets successive polls return. A failed send is terminal
      before any poll. */
  function Dispatch(sendOk: bool, feed: seq<Packet>, triggers: seq<Trigger>): (d: AwaitOutcome)
    ensures d.Returned? ==> d.consumed <= |feed| && d.result.IsTerminal()
    ensures d.Returned? && sendOk ==> d.consumed > 0
    ensures d.Returned? ==> (d.result.HasError() <==> !d.result.HasSatisfiedResult())
  {
    if !sendOk then Returned(Initial.(sendCommandFailed := true, errorString := SendFailedText), 0)
    else Await(NothingObserved, feed, triggers, 0)
  }

  /** The engine itself: send, then poll while the result is neither an
      error nor satisfied, keeping the three growing lists and updating the
      result flags in place. */
  method SendCommandAwaitEvent(sendOk: bool, feed: seq<Packet>, triggers: seq<Trigger>) returns (d: AwaitOutcome)
    ensures d == Dispatch(sendOk, feed, triggers)
    ensures !sendOk ==> d.Returned? && d.consumed == 0 && d.result.sendCommandFailed && d.result.errorString == SendFailedText
  {
    var result := Initial;
    if !sendOk {
      result := result.(sendCommandFailed := true, errorString := SendFailedText);
    }

    var rxEvents: seq<Event> := [];
    var rxResultStrings: seq<string> := [];
    var rxPacketErrors: seq<string> := [];
    var i := 0;
    ghost var spec := Dispatch(sendOk, feed, triggers);
    assert feed[0..] == feed;

    while !result.HasError() && !result.HasSatisfiedResult() && i < |feed|
      invariant 0 <= i <= |feed|
      invariant !sendOk ==> i == 0 && result == spec.result
      invariant sendOk && result.IsTerminal() ==> spec == Returned(result, i)
      invariant sendOk && !result.IsTerminal() ==>
        result == Initial && spec == Await(Observed(rxPacketErrors, rxResultStrings, rxEvents), feed[i..], triggers, i)
    {
      ghost var before := Observed(rxPacketErrors, rxResultStrings, rxEvents);
      assert feed[i..][1..] == feed[i + 1..];
      assert Await(before, feed[i..], triggers, i) == Poll(before, feed[i..], triggers, i);
      var packet := feed[i];
      i := i + 1;

      // get packet
      match packet {
        case NoPacket =>
          continue;
        case ErrorPacket(text) =>
          rxPacketErrors := rxPacketErrors + [text];
        case CommandPacket(text) =>
          rxResultStrings := rxResultStrings + [text];
        case EventPacket(evt) =>
          rxEvents := rxEvents + [evt];
        case QuietPacket(_) =>
      }
      ghost var after := Observed(rxPacketErrors, rxResultStrings, rxEvents);
      assert after == Receive(before, packet);

      // match triggers
      if |rxPacketErrors| > 0 {
        result := result.(receivedPacketError := true, errorString := rxPacketErrors[|rxPacketErrors| - 1]);
      } else {
        var resultString := if |rxResultStrings| > 0 then rxResultStrings[|rxResultStrings| - 1] else "";
        assert resultString == NewestResultString(after);
        var matchingTrigger := FindCompletingTrigger(triggers, resultString, rxEvents);
        if matchingTrigger.Some? {
          result := result.(receivedMatchingTrigger := true);
        } else if resultString != "" {
          var incorrectResultString := FindTriggerFor(triggers, resultString).None?;
          if incorrectResultString {
            result := result.(receivedErrorString := true, errorString := resultString);
          }
        }
      }
      assert result == Evaluate(after, triggers);
    }

    if result.IsTerminal() {
      d := Returned(result, i);
    } else {
      d := FeedExhausted;
    }
  }
}
