/** Whole runs of one mote, for every sequence of timer events and received packets:
    the retransmission slot and the ping watchdog. */
module MoteRuns {
  import opened Packets
  import opened Topics
  import opened MoteSpec

  // ---------- The retransmission slot

  /** After any run the slot is a function of what was sent: it holds the last reliable
      packet, with its own destination, and the awaited type is that packet's plus one. */
  ghost predicate SlotMatches(a: Ack, out: seq<Send>) {
    && a.slot == LastReliable(out)
    && a.wanted == (if a.slot.Some? then a.slot.value.pkt.mst + 1 else 0)
    && (a.slot.Some? ==> a.slot.value.pkt.rel)
    && (a.running ==> a.slot.Some?)
  }

  lemma {:induction false} SlotIsLastReliable(kind: Kind, n: nat, inputs: seq<Input>)
    ensures var r := Run(Init(kind, n), inputs); SlotMatches(r.state.ack, r.out)
  {
    if inputs != [] {
      var r := Run(Init(kind, n), inputs[..|inputs| - 1]);
      SlotIsLastReliable(kind, n, inputs[..|inputs| - 1]);
      SlotStep(r.state, r.out, inputs[|inputs| - 1]);
    }
  }

  /** The packets a step passes to `sendPacket`; an ack timer resends without it. */
  function Requested(s: State, input: Input): seq<Send> {
    if input == AckTimer then [] else Step(s, input).out
  }

  /** How one step treats the acknowledgement variables, given the last reliable packet
      it passed to `sendPacket`, if any. */
  ghost predicate SlotFollows(a: Ack, input: Input, a': Ack, last: Option<Send>) {
    && (last.Some? ==> last.value.pkt.rel && a' == Ack(false, last.value.pkt.mst + 1, last, true))
    && (last.None? ==>
          && a'.wanted == a.wanted && a'.slot == a.slot
          && (a'.running ==> a.running) && (a.running && !a.rcv ==> a'.running)
          && (a'.rcv <==> a.rcv || (input.Receive? && input.pkt.mst == a.wanted)))
  }

  lemma {:induction false} StepSlot(s: State, input: Input)
    ensures SlotFollows(s.ack, input, Step(s, input).state.ack, LastReliable(Requested(s, input)))
  {
    match input
    case PeriodTimer => AfterSendsSlot(s.ack, PeriodSends(s));
    case Receive(p, src) => AfterSendsSlot(TakeAck(s.ack, p), Replies(s.topics, p, src));
    case AckTimer =>
    case PingTimer => PingTickIsUnreliable(s);
  }

  lemma {:induction false} PingTickIsUnreliable(s: State)
    ensures LastReliable(PingTick(s).out).None?
  {
    if s.ping.running && s.ping.count + 1 >= 5 {
      var a := [Send(PingReq(), s.ping.dst)];
      assert PingTick(s).out[..1] == a;
      assert LastReliable(a).None?;
    }
  }

  lemma {:induction false} SlotStep(s: State, out: seq<Send>, input: Input)
    requires SlotMatches(s.ack, out)
    ensures var r := Step(s, input); SlotMatches(r.state.ack, out + r.out)
  {
    StepSlot(s, input);
    LastReliableConcat(out, Step(s, input).out);
    if input == AckTimer {
      assert AckTick(s).out == [] || AckTick(s).out == [s.ack.slot.value];
    }
  }

  /** Whether this input, coming after those, is a packet of the type that acknowledges the
      last reliable packet sent. */
  ghost predicate AckArrives(kind: Kind, n: nat, before: seq<Input>, input: Input) {
    var last := LastReliable(Run(Init(kind, n), before).out);
    input.Receive? && input.pkt.mst == (if last.Some? then last.value.pkt.mst + 1 else 0)
  }

  /** Whether this input makes the mote pass a reliable packet to `sendPacket`. */
  ghost predicate RequestsReliable(kind: Kind, n: nat, before: seq<Input>, input: Input) {
    LastReliable(Requested(Run(Init(kind, n), before).state, input)).Some?
  }

  ghost predicate AckedAt(kind: Kind, n: nat, inputs: seq<Input>, k: nat) {
    && k < |inputs| && AckArrives(kind, n, inputs[..k], inputs[k])
    && forall j :: k <= j < |inputs| ==> !RequestsReliable(kind, n, inputs[..j], inputs[j])
  }

  ghost predicate AckedSinceLastRequest(kind: Kind, n: nat, inputs: seq<Input>) {
    exists k: nat :: AckedAt(kind, n, inputs, k)
  }

  /** The flag `ackRcv`, exactly: a packet of the awaited type arrived and no reliable
      packet was sent since. */
  lemma {:induction false} FlagIsHistory(kind: Kind, n: nat, inputs: seq<Input>)
    ensures Run(Init(kind, n), inputs).state.ack.rcv <==> AckedSinceLastRequest(kind, n, inputs)
  {
    if inputs != [] {
      var last := |inputs| - 1;
      var r := Run(Init(kind, n), inputs[..last]);
      FlagIsHistory(kind, n, inputs[..last]);
      SlotIsLastReliable(kind, n, inputs[..last]);
      StepSlot(r.state, inputs[last]);
      AckedSinceStep(kind, n, inputs);
    }
  }

  /** The history predicate, one input at a time. */
  lemma {:induction false} AckedSinceStep(kind: Kind, n: nat, inputs: seq<Input>)
    requires inputs != []
    ensures var before, last := inputs[..|inputs| - 1], inputs[|inputs| - 1];
      AckedSinceLastRequest(kind, n, inputs) <==>
        !RequestsReliable(kind, n, before, last) &&
        (AckedSinceLastRequest(kind, n, before) || AckArrives(kind, n, before, last))
  {
    hide AckArrives, RequestsReliable;
    var end := |inputs| - 1;
    var before := inputs[..end];
    assert forall k :: 0 <= k < end ==> before[..k] == inputs[..k] && before[k] == inputs[k];
    if AckedSinceLastRequest(kind, n, before) && !RequestsReliable(kind, n, before, inputs[end]) {
      var k: nat :| AckedAt(kind, n, before, k);
      assert AckedAt(kind, n, inputs, k);
    }
    if AckArrives(kind, n, before, inputs[end]) && !RequestsReliable(kind, n, before, inputs[end]) {
      assert AckedAt(kind, n, inputs, end);
    }
    if AckedSinceLastRequest(kind, n, inputs) {
      var k: nat :| AckedAt(kind, n, inputs, k);
      assert !RequestsReliable(kind, n, inputs[..end], inputs[end]);
      if k < end {
        assert AckedAt(kind, n, before, k);
      }
    }
  }

  /** As long as the last reliable packet is not acknowledged, the process that resends it
      runs. */
  lemma {:induction false} UnackedIsWatched(kind: Kind, n: nat, inputs: seq<Input>)
    ensures var a := Run(Init(kind, n), inputs).state.ack; a.slot.Some? && !a.rcv ==> a.running
  {
    if inputs != [] {
      var r := Run(Init(kind, n), inputs[..|inputs| - 1]);
      UnackedIsWatched(kind, n, inputs[..|inputs| - 1]);
      StepSlot(r.state, inputs[|inputs| - 1]);
    }
  }

  /** An ack timer resends exactly when a reliable packet was sent and no acknowledgement of
      the last one arrived; what it resends is that packet, to its own destination. */
  lemma {:induction false} ResendExactly(kind: Kind, n: nat, inputs: seq<Input>)
    ensures var r := Run(Init(kind, n), inputs);
      Step(r.state, AckTimer).out ==
        if LastReliable(r.out).Some? && !AckedSinceLastRequest(kind, n, inputs)
        then [LastReliable(r.out).value] else []
  {
    SlotIsLastReliable(kind, n, inputs);
    FlagIsHistory(kind, n, inputs);
    UnackedIsWatched(kind, n, inputs);
  }

  // ---------- The ping watchdog

  function CountType(out: seq<Send>, mst: MessageType): nat {
    if out == [] then 0
    else CountType(out[..|out| - 1], mst) + if out[|out| - 1].pkt.mst == mst then 1 else 0
  }

  lemma {:induction false} CountConcat(a: seq<Send>, b: seq<Send>, mst: MessageType)
    ensures CountType(a + b, mst) == CountType(a, mst) + CountType(b, mst)
  {
    if b == [] {
      assert a + b == a;
    } else {
      assert (a + b)[..|a + b| - 1] == a + b[..|b| - 1];
      CountConcat(a, b[..|b| - 1], mst);
    }
  }

  predicate HasType(out: seq<Send>, mst: MessageType) {
    exists k :: 0 <= k < |out| && out[k].pkt.mst == mst
  }

  lemma {:induction false} CountNone(out: seq<Send>, mst: MessageType)
    requires !HasType(out, mst)
    ensures CountType(out, mst) == 0
  {
    if out != [] {
      var init := out[..|out| - 1];
      assert forall k :: 0 <= k < |init| ==> init[k] == out[k];
      CountNone(init, mst);
    }
  }

  predicate IsPong(input: Input) {
    input.Receive? && input.pkt.mst == PINGRESP
  }

  /** The pings counted when a PINGRESP stopped the watchdog. */
  function Abandoned(s: State, inputs: seq<Input>): nat {
    if inputs == [] then 0
    else
      var before, last := inputs[..|inputs| - 1], inputs[|inputs| - 1];
      var r := Run(s, before).state;
      Abandoned(s, before) + if IsPong(last) && r.ping.running then r.ping.count else 0
  }

  predicate SlotIsNoPing(a: Ack) {
    a.slot.Some? ==> a.slot.value.pkt.mst != PINGREQ && a.slot.value.pkt.mst != DISCONNECT
  }

  lemma {:induction false} PushesAreOfType(t: Table, p: Packet)
    ensures forall k :: 0 <= k < |Pushes(t, p)| ==> Pushes(t, p)[k].pkt == Push(p)
  {
    if t != [] {
      PushesAreOfType(t[..|t| - 1], p);
      var slot := t[|t| - 1];
      if slot.Some? { EntryPushesAreOfType(slot.value.ips, p); }
    }
  }

  lemma {:induction false} EntryPushesAreOfType(ips: seq<Option<Addr>>, p: Packet)
    ensures forall k :: 0 <= k < |EntryPushes(ips, p)| ==> EntryPushes(ips, p)[k].pkt == Push(p)
  {
    if ips != [] { EntryPushesAreOfType(ips[..|ips| - 1], p); }
  }

  /** What a step other than a ping tick does to the watchdog. */
  ghost predicate WatchdogFollows(w: Ping, input: Input, w': Ping) {
    && (w'.running && w.running ==> w'.count == w.count)
    && (w'.running && !w.running ==> w'.count == 0)
    && (!w'.running && w.running ==> IsPong(input))
    && (IsPong(input) ==> !w'.running)
  }

  lemma {:induction false} RepliesAreNoPings(t: Table, p: Packet, src: Addr)
    ensures !HasType(Replies(t, p, src), PINGREQ) && !HasType(Replies(t, p, src), DISCONNECT)
  {
    PushesAreOfType(PublishSlots(t), p);
  }

  lemma {:induction false} PeriodIsNoPing(s: State)
    ensures !HasType(PeriodSends(s), PINGREQ) && !HasType(PeriodSends(s), DISCONNECT)
  {
  }

  /** What holds of the result of such a step. */
  ghost predicate KeepsCount(s: State, input: Input, r: Result) {
    SlotIsNoPing(r.state.ack) && WatchdogFollows(s.ping, input, r.state.ping) &&
    !HasType(r.out, PINGREQ) && !HasType(r.out, DISCONNECT)
  }

  lemma {:induction false} PeriodWatchdog(s: State)
    requires SlotIsNoPing(s.ack)
    ensures KeepsCount(s, PeriodTimer, Period(s))
  {
    hide PeriodSends, AfterSends, NextGas;
    AfterSendsSlot(s.ack, PeriodSends(s));
    PeriodIsNoPing(s);
  }

  lemma {:induction false} ReceiveWatchdog(s: State, p: Packet, src: Addr)
    requires SlotIsNoPing(s.ack)
    ensures KeepsCount(s, Receive(p, src), RxCallback(s, p, src))
  {
    hide Replies, AfterSends, TopicsAfter;
    AfterSendsSlot(TakeAck(s.ack, p), Replies(s.topics, p, src));
    RepliesAreNoPings(s.topics, p, src);
  }

  lemma {:induction false} WatchdogStep(s: State, input: Input)
    requires SlotIsNoPing(s.ack)
    ensures SlotIsNoPing(Step(s, input).state.ack)
    ensures input != PingTimer ==> KeepsCount(s, input, Step(s, input))
  {
    hide Period, RxCallback;
    match input
    case PeriodTimer => PeriodWatchdog(s);
    case Receive(p, src) => ReceiveWatchdog(s, p, src);
    case AckTimer =>
    case PingTimer =>
  }

  lemma {:induction false} WatchdogInvariant(kind: Kind, n: nat, inputs: seq<Input>)
    ensures var s := Run(Init(kind, n), inputs).state;
      SlotIsNoPing(s.ack) && (s.ping.running ==> s.ping.count < 5)
  {
    if inputs != [] {
      WatchdogInvariant(kind, n, inputs[..|inputs| - 1]);
      WatchdogStep(Run(Init(kind, n), inputs[..|inputs| - 1]).state, inputs[|inputs| - 1]);
    }
  }

  /** Conservation: every ping is part of a group of five that ended in a DISCONNECT, was
      abandoned when a PINGRESP stopped the watchdog, or belongs to the current count. */
  lemma {:induction false} WatchdogConservation(kind: Kind, n: nat, inputs: seq<Input>)
    ensures
      var r := Run(Init(kind, n), inputs);
      CountType(r.out, PINGREQ) == 5 * CountType(r.out, DISCONNECT)
        + Abandoned(Init(kind, n), inputs) + (if r.state.ping.running then r.state.ping.count else 0)
  {
    if inputs != [] {
      var r, last := Run(Init(kind, n), inputs[..|inputs| - 1]), inputs[|inputs| - 1];
      WatchdogConservation(kind, n, inputs[..|inputs| - 1]);
      WatchdogInvariant(kind, n, inputs[..|inputs| - 1]);
      WatchdogStep(r.state, last);
      var next := Step(r.state, last);
      CountConcat(r.out, next.out, PINGREQ);
      CountConcat(r.out, next.out, DISCONNECT);
      if last == PingTimer && r.state.ping.running {
        PingTickCounts(r.state);
      } else {
        CountNone(next.out, PINGREQ);
        CountNone(next.out, DISCONNECT);
      }
    }
  }

  lemma {:induction false} PingTickCounts(s: State)
    requires s.ping.running
    ensures CountType(PingTick(s).out, PINGREQ) == 1
    ensures CountType(PingTick(s).out, DISCONNECT) == if s.ping.count + 1 < 5 then 0 else 1
  {
    var a := [Send(PingReq(), s.ping.dst)];
    var b := [Send(Disconnect(), s.ping.dst)];
    CountConcat([], a, PINGREQ);
    CountConcat([], a, DISCONNECT);
    CountConcat(a, b, PINGREQ);
    CountConcat(a, b, DISCONNECT);
    assert a[..0] == b[..0] == [];
    assert [Send(PingReq(), s.ping.dst), Send(Disconnect(), s.ping.dst)] == a + b;
  }

  /** Input k turns the watchdog on. */
  ghost predicate Starts(kind: Kind, n: nat, inputs: seq<Input>, k: nat)
    requires k < |inputs|
  {
    !Run(Init(kind, n), inputs[..k]).state.ping.running && Run(Init(kind, n), inputs[..k + 1]).state.ping.running
  }

  /** The pings sent after input k. */
  function PingsSince(kind: Kind, n: nat, inputs: seq<Input>, k: nat): int
    requires k < |inputs|
  {
    CountType(Run(Init(kind, n), inputs).out, PINGREQ) - CountType(Run(Init(kind, n), inputs[..k + 1]).out, PINGREQ)
  }

  /** Input k was the last to start the watchdog; since then it sent c pings and no PINGRESP
      came. */
  ghost predicate PingedSince(kind: Kind, n: nat, inputs: seq<Input>, k: nat, c: int) {
    && k < |inputs| && Starts(kind, n, inputs, k)
    && (forall j :: k < j < |inputs| ==> !Starts(kind, n, inputs, j) && !IsPong(inputs[j]))
    && PingsSince(kind, n, inputs, k) == c
  }

  lemma {:induction false} RunningSince(kind: Kind, n: nat, inputs: seq<Input>) returns (k: nat)
    requires Run(Init(kind, n), inputs).state.ping.running
    ensures PingedSince(kind, n, inputs, k, Run(Init(kind, n), inputs).state.ping.count)
  {
    var last := |inputs| - 1;
    var before := inputs[..last];
    assert before + [inputs[last]] == inputs;
    assert inputs[..last + 1] == inputs;
    var r := Run(Init(kind, n), before);
    WatchdogInvariant(kind, n, before);
    WatchdogStep(r.state, inputs[last]);
    if r.state.ping.running {
      k := RunningSince(kind, n, before);
      OneMoreInput(kind, n, before, inputs[last], k, r.state.ping.count);
    } else {
      k := last;
    }
  }

  /** The pings a running watchdog sends at one input. */
  lemma {:induction false} PingsOfStep(s: State, input: Input)
    requires SlotIsNoPing(s.ack) && s.ping.running
    ensures CountType(Step(s, input).out, PINGREQ) == if input == PingTimer then 1 else 0
  {
    hide Period, RxCallback;
    WatchdogStep(s, input);
    if input == PingTimer { PingTickCounts(s); } else { CountNone(Step(s, input).out, PINGREQ); }
  }

  lemma {:induction false} OneMoreInput(kind: Kind, n: nat, inputs: seq<Input>, input: Input, k: nat, c: int)
    requires PingedSince(kind, n, inputs, k, c) && !IsPong(input) && Run(Init(kind, n), inputs).state.ping.running
    ensures PingedSince(kind, n, inputs + [input], k, c + if input == PingTimer then 1 else 0)
  {
    hide Step;
    var all := inputs + [input];
    var r := Run(Init(kind, n), inputs);
    WatchdogInvariant(kind, n, inputs);
    PingsOfStep(r.state, input);
    CountConcat(r.out, Step(r.state, input).out, PINGREQ);
    assert all[..|inputs|] == inputs;
    assert forall j :: 0 <= j <= |inputs| ==> all[..j] == inputs[..j];
    forall j | k < j < |all| ensures !Starts(kind, n, all, j) && !IsPong(all[j]) {
      if j < |inputs| {
        assert !Starts(kind, n, inputs, j) && all[j] == inputs[j];
      }
    }
    assert Starts(kind, n, all, k);
  }

  /** Every DISCONNECT comes with the fifth PINGREQ since the watchdog's last start, with no
      PINGRESP handled in between. */
  lemma {:induction false} DisconnectAfterFivePings(kind: Kind, n: nat, inputs: seq<Input>) returns (k: nat)
    requires inputs != []
    requires HasType(Step(Run(Init(kind, n), inputs[..|inputs| - 1]).state, inputs[|inputs| - 1]).out, DISCONNECT)
    ensures inputs[|inputs| - 1] == PingTimer
    ensures PingedSince(kind, n, inputs, k, 5)
  {
    var before, last := inputs[..|inputs| - 1], inputs[|inputs| - 1];
    assert before + [last] == inputs;
    var s := Run(Init(kind, n), before).state;
    WatchdogInvariant(kind, n, before);
    WatchdogStep(s, last);
    assert last == PingTimer && s.ping.running && s.ping.count == 4;
    k := RunningSince(kind, n, before);
    OneMoreInput(kind, n, before, last, k, 4);
  }

  /** After any received packet the watchdog is off if the packet was a PINGRESP and on
      otherwise. */
  lemma {:induction false} WatchdogAfterCallback(s: State, p: Packet, src: Addr)
    ensures RxCallback(s, p, src).state.ping.running <==> p.mst != PINGRESP
  {
  }
}
