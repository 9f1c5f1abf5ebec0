/** The variables of a node as functions of its history, for every sequence of timer events
    and received packets: when it is connected, when its watchdog runs and whom it pings,
    what was pushed to it, and when a washer counts. */
module MoteHistory {
  import opened Packets
  import opened Numerals
  import opened Topics
  import opened MoteSpec
  import opened MoteRuns

  /** What an input does, given the inputs before it. */
  type Effect = (seq<Input>, Input) -> bool

  ghost predicate OnSince(inputs: seq<Input>, on: Effect, off: Effect, k: nat) {
    k < |inputs| && on(inputs[..k], inputs[k]) && forall j :: k < j < |inputs| ==> !off(inputs[..j], inputs[j])
  }

  /** Something was switched on, and not off since. */
  ghost predicate IsOn(inputs: seq<Input>, on: Effect, off: Effect) {
    exists k: nat :: OnSince(inputs, on, off, k)
  }

  lemma {:induction false} OneMore(inputs: seq<Input>, on: Effect, off: Effect)
    requires inputs != []
    ensures var before, last := inputs[..|inputs| - 1], inputs[|inputs| - 1];
      IsOn(inputs, on, off) <==> on(before, last) || (IsOn(before, on, off) && !off(before, last))
  {
    var end := |inputs| - 1;
    var before, last := inputs[..end], inputs[end];
    assert forall k :: 0 <= k < end ==> before[..k] == inputs[..k] && before[k] == inputs[k];
    if on(before, last) { assert OnSince(inputs, on, off, end); }
    if IsOn(before, on, off) && !off(before, last) {
      var k: nat :| OnSince(before, on, off, k);
      assert OnSince(inputs, on, off, k);
    }
    if IsOn(inputs, on, off) {
      var k: nat :| OnSince(inputs, on, off, k);
      if k < end { assert OnSince(before, on, off, k); }
    }
  }

  predicate Gets(input: Input, mst: MessageType) { input.Receive? && input.pkt.mst == mst }

  // ---------- Connected

  function GetsConnAck(): Effect { (before: seq<Input>, input: Input) => Gets(input, CONNACK) }
  function GetsDisconnect(): Effect { (before: seq<Input>, input: Input) => Gets(input, DISCONNECT) }

  lemma {:induction false} ConnectedStep(s: State, input: Input)
    ensures Step(s, input).state.connected <==>
      Gets(input, CONNACK) || (s.connected && !Gets(input, DISCONNECT))
    ensures Step(s, input).state.kind == s.kind
  {
    hide AfterSends, Replies, PeriodSends, TopicsAfter, TakeAck;
  }

  /** A node is connected exactly when a CONNACK came and no DISCONNECT since. */
  lemma {:induction false} ConnectedIsHistory(kind: Kind, n: nat, inputs: seq<Input>)
    ensures Run(Init(kind, n), inputs).state.connected <==> IsOn(inputs, GetsConnAck(), GetsDisconnect())
    ensures Run(Init(kind, n), inputs).state.kind == kind
  {
    hide IsOn, Step;
    if inputs == [] {
      assert !IsOn([], GetsConnAck(), GetsDisconnect()) by { NothingOn(GetsConnAck(), GetsDisconnect()); }
    } else {
      var before, last := inputs[..|inputs| - 1], inputs[|inputs| - 1];
      ConnectedIsHistory(kind, n, before);
      ConnectedStep(Run(Init(kind, n), before).state, last);
      OneMore(inputs, GetsConnAck(), GetsDisconnect());
    }
  }

  lemma {:induction false} NothingOn(on: Effect, off: Effect)
    ensures !IsOn([], on, off)
  {
  }

  // ---------- The watchdog

  /** A packet other than PINGRESP arrives, or a connected node has its turn. */
  function StartsWatchdog(kind: Kind, n: nat): Effect {
    (before: seq<Input>, input: Input) =>
      (input.Receive? && input.pkt.mst != PINGRESP) ||
      (input == PeriodTimer && Run(Init(kind, n), before).state.connected)
  }

  /** A PINGRESP arrives, or the node gives up with a DISCONNECT: by
      `DisconnectAfterFivePings`, at the fifth ping since the start. */
  function StopsWatchdog(kind: Kind, n: nat): Effect {
    (before: seq<Input>, input: Input) =>
      Gets(input, PINGRESP) ||
      (input == PingTimer && HasType(Step(Run(Init(kind, n), before).state, input).out, DISCONNECT))
  }

  lemma {:induction false} WatchdogStep(s: State, input: Input)
    ensures Step(s, input).state.ping.running <==>
      || (input.Receive? && input.pkt.mst != PINGRESP)
      || (input == PeriodTimer && s.connected)
      || (s.ping.running && !Gets(input, PINGRESP) && !(input == PingTimer && HasType(PingTick(s).out, DISCONNECT)))
    ensures !s.connected ==> Period(s).state.ping == s.ping
  {
    hide AfterSends, Replies, PeriodSends, TopicsAfter, TakeAck;
    if input == PingTimer && s.ping.running {
      PingsInFull(s);
      if s.ping.count >= 4 { assert PingTick(s).out[1].pkt.mst == DISCONNECT; }
    }
  }

  /** What a ping timer sends: one PINGREQ, and with the fifth a DISCONNECT right after it. */
  lemma {:induction false} PingsInFull(s: State)
    requires s.ping.running
    ensures PingTick(s).out ==
      [Send(Packet(10, false, "PINGREQ", "  testPayload"), s.ping.dst)] +
      if s.ping.count < 4 then [] else [Send(Packet(5, false, "DISCONNECT", "  testpayload"), s.ping.dst)]
  {
    assert "  " + "testPayload" == "  testPayload" && "  " + "testpayload" == "  testpayload";
  }

  /** The watchdog runs exactly when, since the last PINGRESP or DISCONNECT of its own, a
      packet other than PINGRESP arrived or a period timer fired while connected. */
  lemma {:induction false} WatchdogIsHistory(kind: Kind, n: nat, inputs: seq<Input>)
    ensures Run(Init(kind, n), inputs).state.ping.running <==>
      IsOn(inputs, StartsWatchdog(kind, n), StopsWatchdog(kind, n))
  {
    hide IsOn, Step;
    var on, off := StartsWatchdog(kind, n), StopsWatchdog(kind, n);
    if inputs == [] {
      NothingOn(on, off);
    } else {
      var before, last := inputs[..|inputs| - 1], inputs[|inputs| - 1];
      var s := Run(Init(kind, n), before).state;
      WatchdogIsHistory(kind, n, before);
      WatchdogStep(s, last);
      OneMore(inputs, on, off);
      if last == PingTimer { PingTimerIsTick(s); }
    }
  }

  lemma {:induction false} PingTimerIsTick(s: State)
    ensures Step(s, PingTimer) == PingTick(s)
  {
  }

  /** Whom the watchdog pings: whoever sent the last packet, or the server if the node had a
      turn while connected since. */
  function LastContact(kind: Kind, n: nat, inputs: seq<Input>): Addr {
    if inputs == [] then Server
    else
      var before, last := inputs[..|inputs| - 1], inputs[|inputs| - 1];
      if last.Receive? then last.src
      else if last == PeriodTimer && Run(Init(kind, n), before).state.connected then Server
      else LastContact(kind, n, before)
  }

  lemma {:induction false} PingsLastContact(kind: Kind, n: nat, inputs: seq<Input>)
    ensures Run(Init(kind, n), inputs).state.ping.dst == LastContact(kind, n, inputs)
  {
    if inputs != [] {
      var before, last := inputs[..|inputs| - 1], inputs[|inputs| - 1];
      PingsLastContact(kind, n, before);
      DestinationStep(Run(Init(kind, n), before).state, last);
    }
  }

  lemma {:induction false} DestinationStep(s: State, input: Input)
    ensures Step(s, input).state.ping.dst ==
      if input.Receive? then input.src else if input == PeriodTimer && s.connected then Server else s.ping.dst
  {
    hide AfterSends, Replies, PeriodSends, TopicsAfter, TakeAck;
  }

  // ---------- The process that resends

  function StartsAckThread(kind: Kind, n: nat): Effect {
    (before: seq<Input>, input: Input) => LastReliable(Requested(Run(Init(kind, n), before).state, input)).Some?
  }

  function EndsAckThread(kind: Kind, n: nat): Effect {
    (before: seq<Input>, input: Input) => input == AckTimer && Run(Init(kind, n), before).state.ack.rcv
  }

  lemma {:induction false} AckThreadStep(s: State, input: Input)
    ensures Step(s, input).state.ack.running <==>
      LastReliable(Requested(s, input)).Some? || (s.ack.running && !(input == AckTimer && s.ack.rcv))
  {
    hide PeriodSends, Replies, AfterSends;
    match input
    case PeriodTimer => AfterSendsSlot(s.ack, PeriodSends(s));
    case Receive(p, src) => AfterSendsSlot(TakeAck(s.ack, p), Replies(s.topics, p, src));
    case AckTimer => assert LastReliable([]).None?;
    case PingTimer => PingTickIsUnreliable(s);
  }

  /** The process `ackThread` runs exactly when a reliable packet was sent and its timer has
      not fired on a set flag since. */
  lemma {:induction false} AckThreadIsHistory(kind: Kind, n: nat, inputs: seq<Input>)
    ensures Run(Init(kind, n), inputs).state.ack.running <==>
      IsOn(inputs, StartsAckThread(kind, n), EndsAckThread(kind, n))
  {
    hide IsOn, Step, Requested;
    var on, off := StartsAckThread(kind, n), EndsAckThread(kind, n);
    if inputs == [] {
      NothingOn(on, off);
    } else {
      var before, last := inputs[..|inputs| - 1], inputs[|inputs| - 1];
      AckThreadIsHistory(kind, n, before);
      AckThreadStep(Run(Init(kind, n), before).state, last);
      OneMore(inputs, on, off);
    }
  }

  // ---------- What was pushed

  function LastPush(inputs: seq<Input>): Option<string> {
    if inputs == [] then None
    else
      var last := inputs[|inputs| - 1];
      if Gets(last, PUSH) then Some(last.pkt.payload) else LastPush(inputs[..|inputs| - 1])
  }

  lemma {:induction false} PushedStep(s: State, input: Input)
    ensures Step(s, input).state.pushed == if Gets(input, PUSH) then Some(input.pkt.payload) else s.pushed
  {
    hide AfterSends, Replies, PeriodSends, TopicsAfter, TakeAck;
  }

  /** What the sensor program reads is the text of the last push, whatever came after it; the
      alarm is on exactly when that text reads 10 or more, and the light switches exactly on
      "ON" and "OFF". */
  lemma {:induction false} PushedIsHistory(kind: Kind, n: nat, inputs: seq<Input>)
    ensures var s := Run(Init(kind, n), inputs).state;
      && s.pushed == LastPush(inputs)
      && (AlarmOn(s) <==> kind == Alarm && LastPush(inputs).Some? && Atoi(LastPush(inputs).value) >= 10)
      && (LightSwitches(s) <==> kind == Light && (LastPush(inputs) == Some("ON") || LastPush(inputs) == Some("OFF")))
  {
    hide Step, Atoi;
    ConnectedIsHistory(kind, n, inputs);
    if inputs != [] {
      PushedIsHistory(kind, n, inputs[..|inputs| - 1]);
      PushedStep(Run(Init(kind, n), inputs[..|inputs| - 1]).state, inputs[|inputs| - 1]);
    }
  }

  // ---------- The washer

  /** A callback ends with this text as the last one pushed. */
  function ReadsText(text: string): Effect {
    (before: seq<Input>, input: Input) => input.Receive? && LastPush(before + [input]) == Some(text)
  }

  /** "STOP" is read, or a connected washer has its turn. */
  function StopsWasher(kind: Kind, n: nat): Effect {
    (before: seq<Input>, input: Input) =>
      ReadsText("STOP")(before, input) || (input == PeriodTimer && Run(Init(kind, n), before).state.connected)
  }

  lemma {:induction false} WasherStep(s: State, input: Input)
    requires s.kind == Washer
    ensures var s' := Step(s, input).state;
      s'.wamaTimer <==>
        || (input.Receive? && s'.pushed == Some("START"))
        || (s.wamaTimer && !(input.Receive? && s'.pushed == Some("STOP")) && !(input == PeriodTimer && s.connected))
  {
    hide AfterSends, Replies, PeriodSends, TopicsAfter, TakeAck;
    assert "START"[2] != "STOP"[2];
  }

  /** A washer counts exactly when a callback ended on "START", and since then none ended on
      "STOP" and the washer had no turn while connected. */
  lemma {:induction false} WasherIsHistory(n: nat, inputs: seq<Input>)
    ensures Run(Init(Washer, n), inputs).state.wamaTimer <==>
      IsOn(inputs, ReadsText("START"), StopsWasher(Washer, n))
  {
    hide IsOn, Step;
    var on, off := ReadsText("START"), StopsWasher(Washer, n);
    if inputs == [] {
      NothingOn(on, off);
    } else {
      var before, last := inputs[..|inputs| - 1], inputs[|inputs| - 1];
      assert inputs == before + [last];
      WasherIsHistory(n, before);
      ConnectedIsHistory(Washer, n, before);
      PushedIsHistory(Washer, n, inputs);
      var s := Run(Init(Washer, n), before).state;
      WasherStep(s, last);
      OneMore(inputs, on, off);
      assert Run(Init(Washer, n), inputs).state == Step(s, last).state;
      assert on(before, last) <==> last.Receive? && LastPush(inputs) == Some("START");
      assert ReadsText("STOP")(before, last) <==> last.Receive? && LastPush(inputs) == Some("STOP");
    }
  }

  // ---------- What a turn sends

  /** The packets of one turn, written out. */
  function TurnInFull(kind: Kind, connected: bool, nextGas: nat, counting: bool): seq<Packet> {
    var hello := Packet(0, false, "init", "  123456789100000000");
    if !connected then
      match kind
      case Gas => [hello]
      case Alarm => [hello, Packet(3, true, "GAS", "  ")]
      case Light => [hello, Packet(3, true, "Light", "  ")]
      case Washer => [hello, Packet(3, true, "WAMA/command", "  ")]
    else
      match kind
      case Gas => [Packet(1, true, "GAS", "  " + Dec(nextGas))]
      case Washer => if counting then [Packet(1, true, "WAMA/info", "  1")] else []
      case _ => []
  }

  /** Every turn sends its packets to the server, in order. */
  lemma {:induction false} TurnSends(s: State)
    ensures |PeriodSends(s)| == |TurnInFull(s.kind, s.connected, NextGas(s.gasValue), s.wamaTimer)|
    ensures forall k :: 0 <= k < |PeriodSends(s)| ==>
      PeriodSends(s)[k] == Send(TurnInFull(s.kind, s.connected, NextGas(s.gasValue), s.wamaTimer)[k], Server)
  {
    hide NextGas;
    assert "  " + "" == "  " && "  " + "123456789100000000" == "  123456789100000000";
    assert Dec(1) == "1" && "  " + "1" == "  1";
  }
}
