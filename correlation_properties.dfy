/** Properties of the correlation engine, stated against a declarative view
    of a dispatch: the dispatch returns at the first poll that received a
    packet and whose evaluation of everything received so far is terminal. */
module CorrelationProperties {
  import opened Packets
  import opened Correlation

  /** Everything accumulated from a sequence of polls, in order. */
  function Accumulate(packets: seq<Packet>): Observed
    decreases |packets|
  {
    if packets == [] then NothingObserved
    else Receive(Accumulate(packets[..|packets| - 1]), packets[|packets| - 1])
  }

  /** Poll number `k` (counting from 1) received a packet, and evaluating
      what the first `k` polls accumulated gives a terminal result. */
  predicate EndsAt(feed: seq<Packet>, triggers: seq<Trigger>, k: nat) {
    0 < k <= |feed| && !feed[k - 1].NoPacket? && Evaluate(Accumulate(feed[..k]), triggers).IsTerminal()
  }

  lemma AccumulateStep(feed: seq<Packet>, i: nat)
    requires i < |feed|
    ensures Accumulate(feed[..i + 1]) == Receive(Accumulate(feed[..i]), feed[i])
  {
    assert feed[..i + 1][..i] == feed[..i];
  }

  lemma {:induction false} AwaitFromPrefix(feed: seq<Packet>, triggers: seq<Trigger>, i: nat)
    requires i <= |feed|
    requires forall j :: 0 < j <= i ==> !EndsAt(feed, triggers, j)
    ensures var d := Await(Accumulate(feed[..i]), feed[i..], triggers, i);
      (d.Returned? ==>
        EndsAt(feed, triggers, d.consumed) &&
        d.result == Evaluate(Accumulate(feed[..d.consumed]), triggers) &&
        forall j :: 0 < j < d.consumed ==> !EndsAt(feed, triggers, j)) &&
      (d.FeedExhausted? ==> forall j :: 0 < j <= |feed| ==> !EndsAt(feed, triggers, j))
    decreases |feed| - i
  {
    if i < |feed| {
      assert feed[i..][1..] == feed[i + 1..];
      AccumulateStep(feed, i);
      var obs := Accumulate(feed[..i + 1]);
      if feed[i].NoPacket? || !Evaluate(obs, triggers).IsTerminal() {
        assert !EndsAt(feed, triggers, i + 1);
        AwaitFromPrefix(feed, triggers, i + 1);
      }
    }
  }

  /** The engine returns at the first terminal poll, with the evaluation of
      what had been received by then; if the feed runs out first, no poll of
      it is terminal. */
  lemma DispatchEndsAtFirstTerminalPoll(feed: seq<Packet>, triggers: seq<Trigger>)
    ensures var d := Dispatch(true, feed, triggers);
      (d.Returned? ==>
        EndsAt(feed, triggers, d.consumed) &&
        d.result == Evaluate(Accumulate(feed[..d.consumed]), triggers) &&
        forall j :: 0 < j < d.consumed ==> !EndsAt(feed, triggers, j)) &&
      (d.FeedExhausted? <==> forall j :: 0 < j <= |feed| ==> !EndsAt(feed, triggers, j))
  {
    assert feed[..0] == [] && feed[0..] == feed;
    AwaitFromPrefix(feed, triggers, 0);
  }

  /** A packet error at poll `i + 1` ends the dispatch there at the latest,
      and if the dispatch was still waiting, it returns that error's text,
      whatever echoes and events came before. */
  lemma ErrorPacketEndsDispatch(feed: seq<Packet>, triggers: seq<Trigger>, i: nat)
    requires i < |feed| && feed[i].ErrorPacket?
    ensures var d := Dispatch(true, feed, triggers);
      d.Returned? && d.consumed <= i + 1 &&
      (d.consumed == i + 1 ==>
        d.result.receivedPacketError && !d.result.receivedMatchingTrigger &&
        d.result.errorString == feed[i].errorText)
  {
    AccumulateStep(feed, i);
    assert EndsAt(feed, triggers, i + 1);
    DispatchEndsAtFirstTerminalPoll(feed, triggers);
  }

  /** Every accumulated packet error came from an error packet. */
  lemma {:induction false} ErrorsComeFromErrorPackets(packets: seq<Packet>)
    requires Accumulate(packets).packetErrors != []
    ensures exists j :: 0 <= j < |packets| && packets[j].ErrorPacket?
  {
    var n := |packets| - 1;
    if !packets[n].ErrorPacket? {
      ErrorsComeFromErrorPackets(packets[..n]);
      var j :| 0 <= j < n && packets[..n][j].ErrorPacket?;
      assert packets[j].ErrorPacket?;
    }
  }

  /** While a dispatch is still waiting, nothing it accumulated is a packet
      error. */
  lemma NoErrorBeforeEnd(feed: seq<Packet>, triggers: seq<Trigger>, k: nat)
    requires k <= |feed|
    requires forall j :: 0 < j <= k ==> !EndsAt(feed, triggers, j)
    ensures Accumulate(feed[..k]).packetErrors == []
  {
    if Accumulate(feed[..k]).packetErrors != [] {
      ErrorsComeFromErrorPackets(feed[..k]);
      var j :| 0 <= j < k && feed[..k][j].ErrorPacket?;
      AccumulateStep(feed, j);
      assert EndsAt(feed, triggers, j + 1);
    }
  }

  /** A non-empty echo that names no trigger ends the dispatch at that poll
      at the latest; if the dispatch was still waiting, it reports that echo
      as an error string. */
  lemma UnrecognisedEchoEndsDispatch(feed: seq<Packet>, triggers: seq<Trigger>, i: nat)
    requires i < |feed| && feed[i].CommandPacket? && feed[i].commandText != ""
    requires forall t :: t in triggers ==> t.resultString != feed[i].commandText
    ensures var d := Dispatch(true, feed, triggers);
      d.Returned? && d.consumed <= i + 1 &&
      (d.consumed == i + 1 ==>
        d.result.receivedErrorString && !d.result.receivedMatchingTrigger &&
        d.result.errorString == feed[i].commandText)
  {
    AccumulateStep(feed, i);
    assert EndsAt(feed, triggers, i + 1);
    DispatchEndsAtFirstTerminalPoll(feed, triggers);
    var d := Dispatch(true, feed, triggers);
    if d.consumed == i + 1 {
      NoErrorBeforeEnd(feed, triggers, i);
    }
  }

  /** A first echo that the table does not list fails the dispatch at the
      first poll, with exactly that echo as the error text and no other
      flag set. */
  lemma UnlistedFirstEchoFails(triggers: seq<Trigger>, s: string)
    requires s != "" && forall t :: t in triggers ==> t.resultString != s
    ensures Dispatch(true, [CommandPacket(s)], triggers) == Returned(Initial.(receivedErrorString := true, errorString := s), 1)
  {
    var feed := [CommandPacket(s)];
    DispatchEndsAtFirstTerminalPoll(feed, triggers);
    UnrecognisedEchoEndsDispatch(feed, triggers, 0);
    assert feed[..1] == feed && feed[..0] == [];
    assert Accumulate(feed) == Observed([], [s], []);
  }

  /** An echo and its trigger's event complete the dispatch in either order
      of arrival. */
  lemma EventBeforeOrAfterEcho(triggers: seq<Trigger>, s: string, e: Event)
    requires Trigger(s, e) in triggers
    ensures var d := Dispatch(true, [CommandPacket(s), EventPacket(e)], triggers);
      d.Returned? && d.result.HasSatisfiedResult()
    ensures var d := Dispatch(true, [EventPacket(e), CommandPacket(s)], triggers);
      d.Returned? && d.result.HasSatisfiedResult()
  {
    EchoOrEventFirst(triggers, s, e, CommandPacket(s), EventPacket(e));
    EchoOrEventFirst(triggers, s, e, EventPacket(e), CommandPacket(s));
  }

  /** One order of arrival: by the second poll at the latest the echo is the
      newest and the event has been seen, so the trigger completes. */
  lemma EchoOrEventFirst(triggers: seq<Trigger>, s: string, e: Event, first: Packet, second: Packet)
    requires Trigger(s, e) in triggers
    requires (first == CommandPacket(s) && second == EventPacket(e)) || (first == EventPacket(e) && second == CommandPacket(s))
    ensures var d := Dispatch(true, [first, second], triggers); d.Returned? && d.result.HasSatisfiedResult()
  {
    var both := Observed([], [s], [e]);
    assert Completes(Trigger(s, e), s, [e]);
    assert Evaluate(both, triggers).HasSatisfiedResult();
    var feed := [first, second];
    assert feed[1..] == [second] && [second][1..] == [];
    var obs := Receive(NothingObserved, first);
    var r := Evaluate(obs, triggers);
    assert !r.HasError();
    assert Receive(obs, second) == both;
    assert Await(obs, [second], triggers, 1) == Poll(obs, [second], triggers, 1) == Returned(Evaluate(both, triggers), 2);
    assert Dispatch(true, feed, triggers) == Poll(NothingObserved, feed, triggers, 0) == if r.IsTerminal() then Returned(r, 1) else Await(obs, [second], triggers, 1);
  }

  /** Once a dispatch has returned, packets the server sends later make no
      difference: the verdict on a finite feed is the verdict on any longer
      one. */
  lemma {:induction false} AwaitIgnoresLaterPackets(obs: Observed, rest: seq<Packet>, more: seq<Packet>, triggers: seq<Trigger>, n: nat)
    requires Await(obs, rest, triggers, n).Returned?
    ensures Await(obs, rest + more, triggers, n) == Await(obs, rest, triggers, n)
    decreases |rest|
  {
    assert (rest + more)[1..] == rest[1..] + more;
    var obs' := Receive(obs, rest[0]);
    if rest[0].NoPacket? || !Evaluate(obs', triggers).IsTerminal() {
      AwaitIgnoresLaterPackets(if rest[0].NoPacket? then obs else obs', rest[1..], more, triggers, n + 1);
    }
  }

  /** While a dispatch is waiting at the end of a feed, more packets can
      only end it later. */
  lemma {:induction false} AwaitWaitsPastFeed(obs: Observed, rest: seq<Packet>, more: seq<Packet>, triggers: seq<Trigger>, n: nat)
    requires Await(obs, rest, triggers, n).FeedExhausted?
    ensures var d := Await(obs, rest + more, triggers, n); d.Returned? ==> d.consumed > n + |rest|
    decreases |rest|
  {
    if rest == [] {
      assert rest + more == more;
    } else {
      assert (rest + more)[1..] == rest[1..] + more;
      var obs' := Receive(obs, rest[0]);
      AwaitWaitsPastFeed(if rest[0].NoPacket? then obs else obs', rest[1..], more, triggers, n + 1);
    }
  }

  lemma DispatchIgnoresLaterPackets(sendOk: bool, feed: seq<Packet>, more: seq<Packet>, triggers: seq<Trigger>)
    ensures var d := Dispatch(sendOk, feed, triggers);
      var d' := Dispatch(sendOk, feed + more, triggers);
      (d.Returned? ==> d' == d) &&
      (d.FeedExhausted? ==> d'.FeedExhausted? || d'.consumed > |feed|)
  {
    if sendOk {
      if Dispatch(sendOk, feed, triggers).Returned? {
        AwaitIgnoresLaterPackets(NothingObserved, feed, more, triggers, 0);
      } else {
        AwaitWaitsPastFeed(NothingObserved, feed, more, triggers, 0);
      }
    }
  }

  /** The same dispatch, reached with `m` more polls already made. */
  function Later(d: AwaitOutcome, m: nat): AwaitOutcome {
    if d.Returned? then Returned(d.result, d.consumed + m) else d
  }

  lemma {:induction false} AwaitCountsPolls(obs: Observed, rest: seq<Packet>, triggers: seq<Trigger>, n: nat, m: nat)
    ensures Await(obs, rest, triggers, n + m) == Later(Await(obs, rest, triggers, n), m)
    decreases |rest|
  {
    if rest != [] {
      var obs' := Receive(obs, rest[0]);
      AwaitCountsPolls(if rest[0].NoPacket? then obs else obs', rest[1..], triggers, n + 1, m);
    }
  }

  /** The same dispatch with one more empty poll at position `at`: the
      outcome is unchanged, except that a dispatch still running at that
      point returns one poll later. */
  function WithEmptyPoll(d: AwaitOutcome, at: nat): AwaitOutcome {
    if d.Returned? && d.consumed > at then Returned(d.result, d.consumed + 1) else d
  }

  lemma {:induction false} AwaitSkipsEmptyPoll(obs: Observed, rest: seq<Packet>, triggers: seq<Trigger>, n: nat, j: nat)
    requires j <= |rest|
    ensures Await(obs, rest[..j] + [NoPacket] + rest[j..], triggers, n) == WithEmptyPoll(Await(obs, rest, triggers, n), n + j)
    decreases j
  {
    var padded := rest[..j] + [NoPacket] + rest[j..];
    if j == 0 {
      assert padded == [NoPacket] + rest && padded[1..] == rest;
      AwaitCountsPolls(obs, rest, triggers, n, 1);
    } else {
      assert padded[0] == rest[0];
      assert padded[1..] == rest[1..][..j - 1] + [NoPacket] + rest[1..][j - 1..];
      var obs' := Receive(obs, rest[0]);
      AwaitSkipsEmptyPoll(if rest[0].NoPacket? then obs else obs', rest[1..], triggers, n + 1, j - 1);
    }
  }

  /** An empty poll skips evaluation and changes nothing but the poll count. */
  lemma EmptyPollChangesNothing(sendOk: bool, feed: seq<Packet>, triggers: seq<Trigger>, j: nat)
    requires j <= |feed|
    ensures Dispatch(sendOk, feed[..j] + [NoPacket] + feed[j..], triggers) ==
      (if sendOk then WithEmptyPoll(Dispatch(sendOk, feed, triggers), j) else Dispatch(sendOk, feed, triggers))
  {
    if sendOk {
      AwaitSkipsEmptyPoll(NothingObserved, feed, triggers, 0, j);
    }
  }
}
