/** More about a node's slot in whole runs: a PUBLISH in it is the last value, the flag has
    its acknowledgement in the log, and until then the process that resends it runs; and a
    node that is connected never subscribes again. */
module NodeSlots {
  import opened Packets
  import opened Numerals
  import opened Topics
  import opened Network
  import opened Causality
  import opened Invariant
  import opened MoteSteps
  import opened HostSteps
  import opened Served
  import opened Scenarios
  import MoteRuns
  import HostSpec
  import MoteSpec

  // ---------- The slot of a gas sensor

  /** A packet of the awaited type was handled by the node. */
  ghost predicate AckCame(log: Log, id: nat, wanted: nat) {
    exists q: Packet :: q.mst == wanted && Handled(Msg(Server, Mote(id), q)) in log
  }

  ghost predicate SlotTold(log: Log, id: nat, st: MoteSpec.State) {
    st.ack.slot.Some? ==>
      && (st.kind == MoteSpec.Gas && st.ack.slot.value.pkt.mst == PUBLISH ==>
            st.ack.slot.value.pkt == Publish("GAS", Dec(st.gasValue)))
      && (st.ack.rcv ==> AckCame(log, id, st.ack.wanted))
      && (!st.ack.rcv ==> st.ack.running)
  }

  ghost predicate SlotsTold(s: Sys) {
    forall id :: 0 <= id < |s.motes| ==> SlotTold(s.log, id, s.motes[id])
  }

  lemma {:induction false} SlotToldGrows(log: Log, log': Log, id: nat, st: MoteSpec.State)
    requires SlotTold(log, id, st) && Extends(log, log')
    ensures SlotTold(log', id, st)
  {
    hide Publish, Dec;
    if st.ack.slot.Some? && st.ack.rcv {
      var q: Packet :| q.mst == st.ack.wanted && Handled(Msg(Server, Mote(id), q)) in log;
      assert Handled(Msg(Server, Mote(id), q)) in log';
    }
  }

  lemma {:induction false} MoteStepTold(s: Sys, id: nat, before: Log, r: MoteSpec.Result, after: Log)
    requires id < |s.motes| && SlotsTold(s) && SlotTold(s.log + before, id, r.state)
    ensures SlotsTold(MoteStep(s, id, before, r, after))
  {
    hide SlotTold;
    var s' := MoteStep(s, id, before, r, after);
    assert Extends(s.log + before, s'.log) && Extends(s.log, s'.log);
    forall other | 0 <= other < |s'.motes| ensures SlotTold(s'.log, other, s'.motes[other]) {
      if other == id { SlotToldGrows(s.log + before, s'.log, id, r.state); }
      else { SlotToldGrows(s.log, s'.log, other, s.motes[other]); }
    }
  }

  lemma {:induction false} PeriodTold(log: Log, id: nat, st: MoteSpec.State)
    requires SlotTold(log, id, st)
    ensures SlotTold(log, id, MoteSpec.Period(st).state)
  {
    hide Dec, AckCame, MoteSpec.AfterSends, MoteSpec.NextGas, MoteSpec.TopicOf;
    MoteSpec.AfterSendsSlot(st.ack, MoteSpec.PeriodSends(st));
    if st.kind == MoteSpec.Gas {
      var sends := MoteSpec.PeriodSends(st);
      assert sends == [sends[0]];
    } else if !st.connected {
      LastIsSubscribe(st);
    }
  }

  lemma {:induction false} LastIsSubscribe(st: MoteSpec.State)
    requires st.kind != MoteSpec.Gas && !st.connected
    ensures MoteSpec.LastReliable(MoteSpec.PeriodSends(st)) ==
      Some(Send(Subscribe(MoteSpec.TopicOf(st.kind)), Server))
  {
    hide MoteSpec.TopicOf;
    var sends := MoteSpec.PeriodSends(st);
    assert sends[|sends| - 1].pkt.rel;
  }

  predicate IsClientType(p: Packet) { p.mst == PUBLISH || p.mst == SUBSCRIBE }

  /** No reply of a node is a PUBLISH or a SUBSCRIBE. */
  lemma {:induction false} RepliesAreNoRequests(t: Table, p: Packet, src: Addr)
    ensures forall k :: 0 <= k < |MoteSpec.Replies(t, p, src)| ==> !IsClientType(MoteSpec.Replies(t, p, src)[k].pkt)
  {
    MoteRuns.PushesAreOfType(PublishSlots(t), p);
  }

  lemma {:induction false} RxAck(st: MoteSpec.State, p: Packet, src: Addr)
    ensures var st' := MoteSpec.RxCallback(st, p, src).state;
      && st'.kind == st.kind && st'.gasValue == st.gasValue
      && (st'.ack.slot == st.ack.slot
          || (st'.ack.slot.Some? && !IsClientType(st'.ack.slot.value.pkt) && !st'.ack.rcv && st'.ack.running))
      && (st.ack.running ==> st'.ack.running) && (st.ack.rcv && !st'.ack.rcv ==> st'.ack.running)
      && (st'.ack.slot == st.ack.slot && st'.ack.rcv ==> st'.ack.wanted == st.ack.wanted)
      && (st'.ack.rcv ==> st.ack.rcv || p.mst == st.ack.wanted)
  {
    hide MoteSpec.Replies, MoteSpec.AfterSends, IsClientType;
    MoteSpec.AfterSendsSlot(MoteSpec.TakeAck(st.ack, p), MoteSpec.Replies(st.topics, p, src));
    RepliesAreNoRequests(st.topics, p, src);
  }

  lemma {:induction false} ReceiveTold(log: Log, id: nat, st: MoteSpec.State, p: Packet)
    requires SlotTold(log, id, st)
    ensures SlotTold(log + [Handled(Msg(Server, Mote(id), p))], id, MoteSpec.RxCallback(st, p, Server).state)
  {
    hide MoteSpec.RxCallback, Publish, Dec;
    var m := Msg(Server, Mote(id), p);
    var log1 := log + [Handled(m)];
    RxAck(st, p, Server);
    assert log1[|log|] == Handled(m);
    SlotToldGrows(log, log1, id, st);
    if p.mst == st.ack.wanted { assert AckCame(log1, id, st.ack.wanted); }
  }

  lemma {:induction false} TimersTold(log: Log, id: nat, st: MoteSpec.State)
    requires SlotTold(log, id, st)
    ensures SlotTold(log, id, MoteSpec.AckTick(st).state) && SlotTold(log, id, MoteSpec.PingTick(st).state)
  {
    hide AckCame, Publish, Dec;
  }

  lemma {:induction false} ApplyTold(cfg: Config, s: Sys, step: Step)
    requires Inv(cfg, s) && SlotsTold(s)
    ensures SlotsTold(Apply(s, step))
  {
    hide Inv, SlotTold, MoteStep, MoteSpec.Period, MoteSpec.AckTick, MoteSpec.PingTick, MoteSpec.RxCallback,
         PeriodEvents, CallbackEvents;
    assert s.log + [] == s.log;
    match step
    case MotePeriod(id) =>
      if id < |s.motes| {
        var before := PeriodEvents(s.motes[id], id);
        SlotToldGrows(s.log, s.log + before, id, s.motes[id]);
        PeriodTold(s.log + before, id, s.motes[id]);
        MoteStepTold(s, id, before, MoteSpec.Period(s.motes[id]), []);
      }
    case MoteAckTimer(id) =>
      if id < |s.motes| {
        TimersTold(s.log, id, s.motes[id]);
        MoteStepTold(s, id, [], MoteSpec.AckTick(s.motes[id]), []);
      }
    case MotePingTimer(id) =>
      if id < |s.motes| {
        TimersTold(s.log, id, s.motes[id]);
        MoteStepTold(s, id, [], MoteSpec.PingTick(s.motes[id]), []);
      }
    case MoteReceives(m) =>
      if m.dst.Mote? && m.dst.id < |s.motes| && Sent(m) in s.log {
        var r := MoteSpec.RxCallback(s.motes[m.dst.id], m.pkt, m.src);
        SenderIsServer(cfg, s, m);
        ReceiveTold(s.log, m.dst.id, s.motes[m.dst.id], m.pkt);
        MoteStepTold(s, m.dst.id, [Handled(m)], r, CallbackEvents(r.state, m.dst.id));
      }
    case _ => ServerStepTold(s, step);
  }

  lemma {:induction false} SenderIsServer(cfg: Config, s: Sys, m: Msg)
    requires Inv(cfg, s) && Sent(m) in s.log && m.dst.Mote?
    ensures FromServer(s.log, m) && m.src == Server
  {
    hide Causal, MoteOk, HostOk;
    SentToMote(cfg, s.log, m);
  }

  lemma {:induction false} ServerStepTold(s: Sys, step: Step)
    requires SlotsTold(s) && !IsNodeStep(step)
    ensures SlotsTold(Apply(s, step))
  {
    hide SlotTold, CommandPacket, Completed, HostSpec.JobStep, ActEvents, HostSpec.Replies, SlotPushes;
    var s' := Apply(s, step);
    assert s'.motes == s.motes && Extends(s.log, s'.log);
    forall id | 0 <= id < |s.motes| ensures SlotTold(s'.log, id, s.motes[id]) {
      SlotToldGrows(s.log, s'.log, id, s.motes[id]);
    }
  }

  lemma {:induction false} SlotsReachable(cfg: Config, steps: seq<Step>)
    ensures SlotsTold(Exec(cfg, steps))
  {
    hide Inv, Apply, SlotsTold;
    if steps == [] {
      InitTold(cfg);
    } else {
      SlotsReachable(cfg, steps[..|steps| - 1]);
      Reachable(cfg, steps[..|steps| - 1]);
      ApplyTold(cfg, Exec(cfg, steps[..|steps| - 1]), steps[|steps| - 1]);
    }
  }

  lemma {:induction false} InitTold(cfg: Config)
    ensures SlotsTold(Init(cfg))
  {
  }

  // ---------- A connected node

  /** The node is connected and its slot holds no SUBSCRIBE. */
  predicate AsksNoMore(st: MoteSpec.State) {
    st.connected && (st.ack.slot.Some? ==> st.ack.slot.value.pkt.mst != SUBSCRIBE)
  }

  predicate NoSubscribe(out: seq<Send>) {
    forall k :: 0 <= k < |out| ==> out[k].pkt.mst != SUBSCRIBE
  }

  /** A connected node publishes or is silent. */
  lemma {:induction false} ConnectedPublishes(st: MoteSpec.State)
    requires st.connected
    ensures forall k :: 0 <= k < |MoteSpec.PeriodSends(st)| ==> MoteSpec.PeriodSends(st)[k].pkt.mst == PUBLISH
  {
  }

  /** It sends no SUBSCRIBE, and only a DISCONNECT ends this. */
  lemma {:induction false} ConnectedStep(st: MoteSpec.State, input: MoteSpec.Input)
    requires AsksNoMore(st) && !(input.Receive? && input.pkt.mst == DISCONNECT)
    ensures var r := MoteSpec.Step(st, input); AsksNoMore(r.state) && NoSubscribe(r.out)
  {
    hide MoteSpec.PeriodSends, MoteSpec.AfterSends, MoteSpec.Replies;
    match input
    case PeriodTimer =>
      ConnectedPublishes(st);
      MoteSpec.AfterSendsSlot(st.ack, MoteSpec.PeriodSends(st));
    case Receive(p, src) =>
      RepliesAreNoRequests(st.topics, p, src);
      MoteSpec.AfterSendsSlot(MoteSpec.TakeAck(st.ack, p), MoteSpec.Replies(st.topics, p, src));
    case AckTimer =>
    case PingTimer =>
  }

  /** The SUBSCRIBE packets node id has sent. */
  ghost predicate AskedBy(log: Log, id: nat, p: Packet) {
    p.mst == SUBSCRIBE && Sent(Msg(Mote(id), Server, p)) in log
  }

  lemma {:induction false} MoteStepAsks(
    s: Sys, id: nat, before: Log, input: MoteSpec.Input, after: Log, asker: nat, p: Packet)
    requires id < |s.motes| && asker < |s.motes| && AsksNoMore(s.motes[asker])
    requires !(input.Receive? && input.pkt.mst == DISCONNECT)
    requires forall k :: 0 <= k < |before| ==> !before[k].Sent?
    requires forall k :: 0 <= k < |after| ==> !after[k].Sent?
    ensures var s' := MoteStep(s, id, before, MoteSpec.Step(s.motes[id], input), after);
      AsksNoMore(s'.motes[asker]) && (AskedBy(s'.log, asker, p) ==> AskedBy(s.log, asker, p))
  {
    hide MoteSpec.Step, AsksNoMore;
    if id == asker { ConnectedStep(s.motes[id], input); }
    var r := MoteSpec.Step(s.motes[id], input);
    var s' := MoteStep(s, id, before, r, after);
    var e := Sent(Msg(Mote(asker), Server, p));
    assert e !in before && e !in after;
    assert p.mst == SUBSCRIBE ==> e !in SentBy(Mote(id), r.out);
  }

  lemma {:induction false} StepAsks(cfg: Config, s: Sys, step: Step, id: nat, p: Packet)
    requires Inv(cfg, s) && id < |s.motes| && AsksNoMore(s.motes[id])
    ensures var s' := Apply(s, step);
      |s'.motes| == |s.motes| && AsksNoMore(s'.motes[id]) && (AskedBy(s'.log, id, p) ==> AskedBy(s.log, id, p))
  {
    hide Inv, AsksNoMore, AskedBy, MoteStep, MoteSpec.Period, MoteSpec.AckTick, MoteSpec.PingTick, MoteSpec.RxCallback;
    match step
    case MotePeriod(n) =>
      if n < |s.motes| {
        MoteStepAsks(s, n, PeriodEvents(s.motes[n], n), MoteSpec.PeriodTimer, [], id, p);
        StepCount(s, n, PeriodEvents(s.motes[n], n), MoteSpec.Period(s.motes[n]), []);
      }
    case MoteAckTimer(n) =>
      if n < |s.motes| {
        MoteStepAsks(s, n, [], MoteSpec.AckTimer, [], id, p);
        StepCount(s, n, [], MoteSpec.AckTick(s.motes[n]), []);
      }
    case MotePingTimer(n) =>
      if n < |s.motes| {
        MoteStepAsks(s, n, [], MoteSpec.PingTimer, [], id, p);
        StepCount(s, n, [], MoteSpec.PingTick(s.motes[n]), []);
      }
    case MoteReceives(m) =>
      if m.dst.Mote? && m.dst.id < |s.motes| && Sent(m) in s.log {
        var r := MoteSpec.RxCallback(s.motes[m.dst.id], m.pkt, m.src);
        NoDisconnect(cfg, s, m);
        MoteStepAsks(s, m.dst.id, [Handled(m)], MoteSpec.Receive(m.pkt, m.src), CallbackEvents(r.state, m.dst.id),
                     id, p);
        StepCount(s, m.dst.id, [Handled(m)], r, CallbackEvents(r.state, m.dst.id));
      }
    case _ => ServerStepAsks(s, step, id, p);
  }

  lemma {:induction false} NoDisconnect(cfg: Config, s: Sys, m: Msg)
    requires Inv(cfg, s) && Sent(m) in s.log && m.dst.Mote?
    ensures m.pkt.mst != DISCONNECT
  {
    hide Inv, HandledType, PushOf;
    SenderIsServer(cfg, s, m);
  }

  lemma {:induction false} StepCount(s: Sys, id: nat, before: Log, r: MoteSpec.Result, after: Log)
    requires id < |s.motes|
    ensures |MoteStep(s, id, before, r, after).motes| == |s.motes|
  {
  }

  lemma {:induction false} ServerStepAsks(s: Sys, step: Step, id: nat, p: Packet)
    requires !IsNodeStep(step)
    ensures Apply(s, step).motes == s.motes && (AskedBy(Apply(s, step).log, id, p) ==> AskedBy(s.log, id, p))
  {
    hide CommandPacket, HostSpec.JobStep, HostSpec.Replies, SlotPushes;
  }

  /** However a run goes on, a connected node whose slot holds no SUBSCRIBE stays connected and
      sends no SUBSCRIBE it has not sent before. */
  lemma {:induction false} NeverAsksAgain(cfg: Config, s: Sys, steps: seq<Step>, id: nat, p: Packet)
    requires CanReach(cfg, s) && id < |s.motes| && AsksNoMore(s.motes[id])
    ensures var s' := Continue(s, steps);
      && |s'.motes| == |s.motes| && AsksNoMore(s'.motes[id])
      && (AskedBy(s'.log, id, p) ==> AskedBy(s.log, id, p))
  {
    hide Leads, Apply, AsksNoMore, AskedBy, Inv;
    if steps != [] {
      var before := Continue(s, steps[..|steps| - 1]);
      NeverAsksAgain(cfg, s, steps[..|steps| - 1], id, p);
      ContinueFrom(Init(cfg), s, steps[..|steps| - 1]);
      ReachableState(cfg, before);
      StepAsks(cfg, before, steps[|steps| - 1], id, p);
    }
  }

  // ---------- A value that is in the server's hands

  /** The server has never answered a PUBLISH of this node. */
  ghost predicate NeverPubAcked(log: Log, id: nat) {
    Sent(Msg(Server, Mote(id), PubAck())) !in log
  }

  /** The server has handled this PUBLISH of node id, or will before it answers any. */
  ghost predicate InServersHands(s: Sys, id: nat, m: Msg) {
    Handled(m) in s.log || (Holds(s.host.udp, m) && NeverPubAcked(s.log, id))
  }

  lemma {:induction false} PubAckShape(cfg: Config, log: Log, id: nat, q: Packet)
    requires Causal(cfg, log) && Sent(Msg(Server, Mote(id), q)) in log && q.mst == PUBACK
    ensures q == PubAck()
  {
    hide Causal, HandledType, PublishSeen, SubscribedTo;
    CauseOf(cfg, log, Sent(Msg(Server, Mote(id), q)));
    CauseOf(cfg, log, Given(Msg(Server, Mote(id), q)));
  }

  lemma {:induction false} PushIsNoPubAck(p: Packet)
    ensures p.mst == PUSH ==> p != PubAck()
    ensures Push(p).mst == PUSH
  {
  }

  /** While the UDP thread holds a packet, none of the other threads answers a PUBLISH. */
  lemma {:induction false} HeldStaysHeld(cfg: Config, s: Sys, step: Step, id: nat, m: Msg)
    requires Inv(cfg, s) && MenuServed(s.host.topics, s.host.menu)
    requires Holds(s.host.udp, m) && NeverPubAcked(s.log, id)
    ensures InServersHands(Apply(s, step), id, m)
  {
    hide Inv, AllServed, PubAck, Push, CommandPacket, Completed, SlotPushes, HostSpec.Replies, HostSpec.TopicsAfter;
    var s' := Apply(s, step);
    if IsNodeStep(step) {
      var es := NodeStepIsSilent(s, step);
    } else {
      match step
      case UdpRuns => if s.host.udp.Dispatching? { assert s'.log[|s.log|] == Handled(m); }
      case MenuRuns =>
        if s.host.menu.Scanning? && s.host.menu.job.todo != [] {
          assert s.host.menu.job.todo[0].pkt == Push(s.host.menu.p);
          PushIsNoPubAck(s.host.menu.p);
          PushIsNoPubAck(Push(s.host.menu.p));
        }
      case AckSends(k) =>
        AckThreadsReady(cfg, s);
        if s' != s { PushIsNoPubAck(Completed(s.host.g, s.host.g.reading[k]).value.pkt); }
      case _ =>
    }
  }

  lemma {:induction false} StaysInHands(cfg: Config, s: Sys, steps: seq<Step>, id: nat, m: Msg)
    requires CanReach(cfg, s) && InServersHands(s, id, m)
    ensures InServersHands(Continue(s, steps), id, m)
  {
    hide Leads, Apply, Inv, Holds, NeverPubAcked, AllServed;
    if steps != [] {
      var before, last := Continue(s, steps[..|steps| - 1]), steps[|steps| - 1];
      StaysInHands(cfg, s, steps[..|steps| - 1], id, m);
      ContinueFrom(Init(cfg), s, steps[..|steps| - 1]);
      ReachableState(cfg, before);
      MenuOfReachable(cfg, before);
      LogGrows(before, last);
      if Handled(m) !in before.log { HeldStaysHeld(cfg, before, last, id, m); }
    }
  }

  lemma {:induction false} MenuOfReachable(cfg: Config, s: Sys)
    requires CanReach(cfg, s)
    ensures MenuServed(s.host.topics, s.host.menu)
  {
    hide Continue, MenuServed, UdpServed, GivenServed, Owed, Pushed, Pending, PushGiven;
    var steps :| Continue(Init(cfg), steps) == s;
    ServerReachable(cfg, steps);
  }

  /** The packet in an acknowledged gas sensor's slot, and where the acknowledgement is. */
  lemma {:induction false} AckedSlot(cfg: Config, s: Sys, id: nat)
    requires CanReach(cfg, s) && id < |s.motes| && s.motes[id].kind == MoteSpec.Gas
    requires var a := s.motes[id].ack; a.slot.Some? && a.slot.value.pkt.mst == PUBLISH && a.rcv
    ensures s.motes[id].ack.slot.value.pkt == Publish("GAS", Dec(GasAfter(Publishes(s.log, id))))
    ensures !NeverPubAcked(s.log, id)
  {
    hide Continue, Causal, HostOk, Publishes, Publish, Dec, GasAfter, PubAck, MoteMay;
    var steps :| Continue(Init(cfg), steps) == s;
    SlotsReachable(cfg, steps);
    ReachableState(cfg, s);
    var a := s.motes[id].ack;
    assert MoteOk(cfg, s.log, id, s.motes[id]) && SlotTold(s.log, id, s.motes[id]);
    var q: Packet :| q.mst == a.wanted && Handled(Msg(Server, Mote(id), q)) in s.log;
    CauseOf(cfg, s.log, Handled(Msg(Server, Mote(id), q)));
    PubAckShape(cfg, s.log, id, q);
  }
}
