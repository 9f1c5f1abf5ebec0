/** Runs that mark the limits of the guarantees, in every installation that allows them: an
    ack thread sends a gas value to the light; the server takes a HELLO for the
    acknowledgement of a push, or an old PUSHACK for that of a new one; a sensor takes an old
    PUBACK for its newest value, which nobody handled; a node is connected and never
    subscribes; a subscriber is never served. And one run that goes well: an alarm. */
module Counterexamples {
  import opened Packets
  import opened Numerals
  import opened Topics
  import opened Network
  import opened Causality
  import opened Invariant
  import opened HostSteps
  import opened Guarantees
  import opened Delivery
  import opened Served
  import opened Scenarios
  import opened NodeSlots
  import HostSpec
  import MoteSpec
  import Uninterrupted

  predicate IsKind(cfg: Config, id: nat, kind: MoteSpec.Kind) {
    id < |cfg.kinds| && cfg.kinds[id] == kind
  }

  lemma {:induction false} AtPowerOn(cfg: Config)
    ensures CanReach(cfg, Init(cfg)) && |Init(cfg).motes| == |cfg.kinds|
    ensures forall id :: 0 <= id < |cfg.kinds| ==>
      var st := Init(cfg).motes[id]; st.kind == cfg.kinds[id] && !st.connected && st.gasValue == 0
  {
    StandStill(Init(cfg));
  }

  // ---------- The shared slot

  /** A light never subscribes to the gas topic. */
  lemma {:induction false} LightIsNoGasSubscriber(cfg: Config, s: Sys, light: nat)
    requires CanReach(cfg, s) && IsKind(cfg, light, MoteSpec.Light)
    ensures !SubscribedTo(s.log, "GAS", Mote(light))
  {
    hide Leads, MoteOk, HostOk, Causal, SubscribedTo;
    ReachableState(cfg, s);
    if SubscribedTo(s.log, "GAS", Mote(light)) {
      SubscribersKind(cfg, s.log, "GAS", Mote(light));
      TopicsOfKinds(MoteSpec.Light);
      assert false;
    }
  }

  /** The light and the alarm have subscribed, in this order, and the gas sensor's first
      value is on its way to the server. */
  lemma {:induction false} ThreeNodesReady(cfg: Config, light: nat, gas: nat, alarm: nat) returns (s: Sys)
    requires IsKind(cfg, light, MoteSpec.Light) && IsKind(cfg, gas, MoteSpec.Gas) && IsKind(cfg, alarm, MoteSpec.Alarm)
    ensures CanReach(cfg, s)
    ensures s.host.topics == Register(Register(EmptyTable(cfg.serverTopics), "Light", Mote(light)), "GAS", Mote(alarm))
    ensures s.host.udp.Waiting? && s.host.menu.Prompt?
    ensures s.host.g.sleeping == s.host.g.sending == 0 && s.host.g.reading == []
    ensures Sent(Msg(Mote(gas), Server, Publish("GAS", Dec(1)))) in s.log
  {
    hide Register, Dec, Publish, Subscribe, NewlyHandled, Leads, Publishes, Init, Handshake;
    var start := Init(cfg);
    AtPowerOn(cfg);
    InitHost(cfg);
    TopicsOfKinds(MoteSpec.Light);
    TopicsOfKinds(MoteSpec.Alarm);
    s := NodeSubscribes(start, start, light);
    s := NodeSubscribes(start, s, alarm);
    s := NodeJoins(start, s, gas);
    s := GasPublishes(start, s, gas);
  }

  lemma {:induction false} InitHost(cfg: Config)
    ensures Init(cfg).host == HostSpec.Init(cfg.serverTopics) && Init(cfg).log == []
  {
  }

  /** The light is sent a push of the gas topic, which it never asked for. */
  lemma {:induction false} GasReachesTheLight(cfg: Config, light: nat, gas: nat, alarm: nat) returns (s: Sys, m: Msg)
    requires IsKind(cfg, light, MoteSpec.Light) && IsKind(cfg, gas, MoteSpec.Gas) && IsKind(cfg, alarm, MoteSpec.Alarm)
    requires cfg.serverTopics >= 2
    ensures CanReach(cfg, s)
    ensures m.src == Server && m.dst == Mote(light) && m.pkt.mst == PUSH && m.pkt.option == "GAS"
    ensures Sent(m) in s.log && !SubscribedTo(s.log, m.pkt.option, m.dst)
  {
    hide Register, PublishSlots, Pushes, Dec, Push, Publish, CommandPacket, NewlyHandled, Leads, SubscribedTo, PubAck,
         HostSpec.TopicsAfter;
    var start := Init(cfg);
    s := ThreeNodesReady(cfg, light, gas, alarm);
    var q := Publish("GAS", Dec(1));
    var ack, push := Send(PubAck(), Mote(gas)), Send(Push(q), Mote(alarm));
    GasPush(q);
    TwoTopics(cfg.serverTopics, Mote(light), Mote(alarm), q);
    LightCommand();
    var s1 := s;
    s := MenuPushes(start, s1, Mote(light));
    Grew(s1.log, s.log, {});
    assert HostSpec.Replies(s.host.topics, q, Mote(gas)) == [ack] + [push];
    s := ServerDispatches(start, s, Msg(Mote(gas), Server, q));
    s := FirstAnswerSent(start, s, ack, [push]);
    s := WakeInBetween(start, s, push, Mote(light));
    m := Msg(Server, Mote(light), push.pkt);
    LightIsNoGasSubscriber(cfg, s, light);
  }

  lemma {:induction false} GasPush(q: Packet)
    requires q == Publish("GAS", Dec(1))
    ensures q.mst == PUBLISH && q.rel && q.option == "GAS" && !PubAck().rel
    ensures Push(q).option == "GAS" && Push(q).rel && Push(q).mst == PUSH
  {
  }

  // ---------- The server's flag

  /** The UDP thread finds that a HELLO is of the awaited type 0; before it records that, the
      menu sends a push; the record then counts for the push. No PUSHACK was ever handled,
      and the ack thread of that push will exit without resending it. */
  lemma {:induction false} HelloCountsForPush(cfg: Config, light: nat) returns (s: Sys)
    requires IsKind(cfg, light, MoteSpec.Light) && cfg.serverTopics >= 1
    ensures CanReach(cfg, s)
    ensures s.host.g.ackRcv && s.host.g.ackTypeWanted == PUSHACK && s.host.g.sleeping == 1
    ensures s.host.udp == HostSpec.Dispatching(Msg(Mote(light), Server, HelloInit()))
    ensures Given(Msg(Server, Mote(light), Push(CommandPacket(LightOn)))) in s.log
    ensures forall m: Msg :: m.pkt.mst == PUSHACK ==> Handled(m) !in s.log
  {
    hide Register, Push, CommandPacket, Subscribe, HelloInit, Leads, Init, Publishes, SubscribedTo;
    var start := Init(cfg);
    AtPowerOn(cfg);
    InitHost(cfg);
    TopicsOfKinds(MoteSpec.Light);
    HelloTypes();
    SubscribeType("Light");
    FirstSlot(cfg.serverTopics, "Light", Mote(light));
    LightCommand();
    var hello := Msg(Mote(light), Server, HelloInit());
    s := NodeSubscribes(start, start, light);
    assert s.host.g == HostSpec.InitGlobals();
    s := Follow(start, s, UdpReceives(hello));
    s := Follow(start, s, UdpRuns);
    s := Follow(start, s, UdpRuns);
    assert s.host.udp == HostSpec.Marking(hello);
    s := MenuPushes(start, s, Mote(light));
    s := Follow(start, s, UdpRuns);
  }

  lemma {:induction false} SubscribeType(topic: string)
    ensures Subscribe(topic).mst == SUBSCRIBE
  {
  }

  // ---------- An old acknowledgement for a new value

  /** The packet with the next value of a gas sensor, on its way. */
  function NextMsg(s: Sys, id: nat): Msg
    requires id < |s.motes|
  {
    Msg(Mote(id), Server, NextValue(s.motes[id]))
  }

  /** Its next value is out, counts as acknowledged, and was never handled. */
  ghost predicate NextValueLost(s: Sys, s': Sys, id: nat)
    requires id < |s.motes|
  {
    && |s'.motes| == |s.motes| && Publishes(s'.log, id) == Publishes(s.log, id) + 1
    && var p, a := NextValue(s.motes[id]), s'.motes[id].ack;
       a.rcv && a.slot == Some(Send(p, Server)) && p.mst == PUBLISH && Handled(NextMsg(s, id)) !in s'.log
  }

  /** From any reachable state in which a gas sensor is connected and has published before: a
      PUBACK for an earlier value may come after its next one, and count for it, while the
      server has not handled the new value; unless that one is in the server's hands. */
  lemma {:induction false} OldAckCountsForNewValue(cfg: Config, s: Sys, id: nat) returns (s': Sys)
    requires CanReach(cfg, s) && id < |s.motes| && s.motes[id].connected && s.motes[id].kind == MoteSpec.Gas
    requires Publishes(s.log, id) >= 1 && !InServersHands(s, id, NextMsg(s, id))
    ensures Leads(s, s') && NextValueLost(s, s', id)
  {
    hide Leads, Publishes, Holds, NextValue, NextValueLost;
    StandStill(s);
    if NeverPubAcked(s.log, id) {
      var ready := ServerPubAcks(cfg, s, id);
      s' := OldAckArrives(s, s, ready, id);
    } else {
      s' := OldAckArrives(s, s, s, id);
    }
  }

  /** A PUBACK is there, and the value to come is still not handled. */
  ghost predicate OldAckReady(s: Sys, ready: Sys, id: nat)
    requires id < |s.motes|
  {
    && ready.motes == s.motes && Publishes(ready.log, id) == Publishes(s.log, id)
    && !NeverPubAcked(ready.log, id) && Handled(NextMsg(s, id)) !in ready.log
  }

  /** The sensor publishes, then the old PUBACK arrives. */
  lemma {:induction false} OldAckArrives(start: Sys, s: Sys, ready: Sys, id: nat) returns (s': Sys)
    requires Leads(start, ready) && id < |s.motes| && OldAckReady(s, ready, id)
    requires s.motes[id].connected && s.motes[id].kind == MoteSpec.Gas
    ensures Leads(start, s') && NextValueLost(s, s', id)
  {
    hide Leads, Publishes, PubAck, Dec, MoteSpec.NextGas;
    var s1 := GasPublishes(start, ready, id);
    s' := NodeTakesAck(start, s1, id);
    assert NextValue(s.motes[id]).mst == PUBLISH;
  }

  /** The server handles the sensor's last value (again) and answers it. */
  lemma {:induction false} ServerPubAcks(cfg: Config, s: Sys, id: nat) returns (ready: Sys)
    requires CanReach(cfg, s) && id < |s.motes| && Publishes(s.log, id) >= 1
    requires Handled(NextMsg(s, id)) !in s.log && !Holds(s.host.udp, NextMsg(s, id))
    ensures Leads(s, ready) && OldAckReady(s, ready, id)
  {
    hide Leads, Publishes, Dec, Publish, PubAck, NewlyHandled, HostSpec.Replies, HostSpec.TopicsAfter, HostSpec.TakeAck,
         MoteSpec.NextGas, ValuesSent;
    var st := s.motes[id];
    var earlier, p := Publish("GAS", Dec(st.gasValue)), NextValue(st);
    var m, answer := Msg(Mote(id), Server, earlier), Msg(Server, Mote(id), PubAck());
    StandStill(s);
    EarlierValueSent(cfg, s, id);
    ValuesDiffer(st.gasValue);
    var s1 := UdpFinishes(s, s);
    assert Sent(m) in s1.log by { Grew(s.log, s1.log, Held(s.host.udp)); }
    var s2 := ServerDispatches(s, s1, m);
    PublishIsAnswered(s1.host.topics, earlier, Mote(id));
    ready := FirstAnswerSent(s, s2, Send(PubAck(), Mote(id)), Pushes(PublishSlots(s1.host.topics), earlier));
    OneHandled(s1.log, m, answer, id);
    assert ready.log == s1.log + [Handled(m)] + [Given(answer), Sent(answer)];
    StillUnhandled(s.log, s1.log, ready.log, s.host.udp, id, earlier, p);
  }

  /** The packet of the last value, which is there to be delivered (again). */
  lemma {:induction false} EarlierValueSent(cfg: Config, s: Sys, id: nat)
    requires CanReach(cfg, s) && id < |s.motes| && Publishes(s.log, id) >= 1
    ensures Sent(Msg(Mote(id), Server, Publish("GAS", Dec(s.motes[id].gasValue)))) in s.log
    ensures 1 <= s.motes[id].gasValue <= 13
  {
    hide Continue, Publishes, Publish, Dec, HostOk, Causal, AckOk, PushedOk;
    var steps :| Continue(Init(cfg), steps) == s;
    LastValueIsSent(cfg, steps);
    ReachableState(cfg, s);
    assert MoteOk(cfg, s.log, id, s.motes[id]);
    assert ValueSent(s.log, id, s.motes[id]);
  }

  lemma {:induction false} ValuesDiffer(v: nat)
    requires 1 <= v <= 13
    ensures Publish("GAS", Dec(v)) != Publish("GAS", Dec(MoteSpec.NextGas(v)))
    ensures Publish("GAS", Dec(v)).mst == PUBLISH && Publish("GAS", Dec(v)).rel
    ensures Publish("GAS", Dec(MoteSpec.NextGas(v))).mst == PUBLISH
  {
    var w := MoteSpec.NextGas(v);
    if Dec(v) == Dec(w) {
      ReadDigitsOfDec(v);
      ReadDigitsOfDec(w);
    }
    assert Publish("GAS", Dec(v)).payload[2..] == Dec(v) && Publish("GAS", Dec(w)).payload[2..] == Dec(w);
  }

  lemma {:induction false} Grew(log: Log, log': Log, ms: set<Msg>)
    requires NewlyHandled(log, log', ms)
    ensures forall e :: e in log ==> e in log'
  {
  }

  lemma {:induction false} PublishIsAnswered(t: Table, p: Packet, from: Addr)
    requires p.mst == PUBLISH && p.rel
    ensures HostSpec.Replies(t, p, from) == [Send(PubAck(), from)] + Pushes(PublishSlots(t), p) && !PubAck().rel
  {
  }

  lemma {:induction false} OneHandled(log: Log, m: Msg, answer: Msg, id: nat)
    ensures var log' := log + [Handled(m)] + [Given(answer), Sent(answer)];
      NewlyHandled(log, log', {m}) && Sent(answer) in log' && Publishes(log', id) == Publishes(log, id)
  {
    hide Publishes;
    var es := [Handled(m), Given(answer), Sent(answer)];
    var log' := log + [Handled(m)] + [Given(answer), Sent(answer)];
    assert log' == log + es;
    assert es[0] == Handled(m) && es[2] == Sent(answer);
    NoPublication(log, es, id);
  }

  lemma {:induction false} StillUnhandled(
    log: Log, log1: Log, log2: Log, udp: HostSpec.Udp, id: nat, earlier: Packet, p: Packet)
    requires NewlyHandled(log, log1, Held(udp)) && NewlyHandled(log1, log2, {Msg(Mote(id), Server, earlier)})
    requires earlier != p && Handled(Msg(Mote(id), Server, p)) !in log && !Holds(udp, Msg(Mote(id), Server, p))
    ensures Handled(Msg(Mote(id), Server, p)) !in log2
  {
  }

  /** In every installation with a gas sensor and for every k > 1 there is a run in which its
      k-th value counts as acknowledged and was never handled. */
  lemma {:induction false} LaterValueLost(cfg: Config, gas: nat, k: nat) returns (s: Sys)
    requires IsKind(cfg, gas, MoteSpec.Gas) && k >= 2
    ensures CanReach(cfg, s) && |s.motes| == |cfg.kinds|
    ensures var a := s.motes[gas].ack;
      && Publishes(s.log, gas) == k && a.rcv && a.slot.Some? && a.slot.value.pkt.mst == PUBLISH
      && Handled(Msg(Mote(gas), Server, a.slot.value.pkt)) !in s.log
  {
    hide Leads, Publishes, Init, NextValue, NeverPubAcked;
    var start := Init(cfg);
    AtPowerOn(cfg);
    InitHost(cfg);
    var s1 := NodeJoins(start, start, gas);
    var s2 := GasPublishesOften(start, s1, gas, k - 1);
    assert Publishes(s2.log, gas) == k - 1 by { NothingPublished(cfg, s1, gas); }
    NothingTaken(s1.log, s2, gas);
    s := OldAckCountsForNewValue(cfg, s2, gas);
    LeadsOn(start, s2, s);
  }

  lemma {:induction false} NothingPublished(cfg: Config, s: Sys, id: nat)
    requires CanReach(cfg, s) && id < |s.motes| && s.motes[id].gasValue == 0
    ensures Publishes(s.log, id) == 0
  {
    hide Leads, Publishes, HostOk, Causal, AckOk, PushedOk;
    ReachableState(cfg, s);
    assert MoteOk(cfg, s.log, id, s.motes[id]);
  }

  lemma {:induction false} NothingTaken(log: Log, s: Sys, id: nat)
    requires NewlyHandled([], log, Handshake(id)) && NewlyHandled(log, s.log, {}) && id < |s.motes|
    requires s.host.udp.Waiting?
    ensures !InServersHands(s, id, NextMsg(s, id))
  {
    hide Dec, MoteSpec.NextGas, PubAck;
    var p := NextValue(s.motes[id]);
    assert p.mst == PUBLISH && HelloInit().mst == HELLO && Connect().mst == CONNECT;
  }

  // ---------- A connected node that never subscribed

  /** A node that is to subscribe says HELLO and is connected before its SUBSCRIBE arrives; the
      CONNECT has taken the place of the SUBSCRIBE in its slot, and by `NeverAsksAgain` it
      will not send another. */
  lemma {:induction false} ConnectedUnsubscribed(cfg: Config, id: nat) returns (s: Sys)
    requires id < |cfg.kinds| && cfg.kinds[id] != MoteSpec.Gas
    ensures CanReach(cfg, s) && |s.motes| == |cfg.kinds|
    ensures s.motes[id].connected && AsksNoMore(s.motes[id])
    ensures !SubscribedTo(s.log, MoteSpec.TopicOf(cfg.kinds[id]), Mote(id))
  {
    hide Leads, Publishes, Init, MoteSpec.TopicOf;
    AtPowerOn(cfg);
    InitHost(cfg);
    s := NodeJoins(Init(cfg), Init(cfg), id);
    HandshakeHasNoSubscribe(id, MoteSpec.TopicOf(cfg.kinds[id]));
  }

  lemma {:induction false} HandshakeHasNoSubscribe(id: nat, topic: string)
    ensures Msg(Mote(id), Server, Subscribe(topic)) !in Handshake(id)
    ensures Connect().mst == CONNECT
  {
    assert Subscribe(topic).mst == SUBSCRIBE && HelloInit().mst == HELLO && Connect().mst == CONNECT;
  }

  // ---------- An old PUSHACK for a new push

  lemma {:induction false} PushedConcat(a: Log, b: Log)
    ensures Pushed(a + b) == Pushed(a) + Pushed(b)
  {
    hide Owed;
    if b == [] {
      assert a + b == a;
    } else {
      var init, e := b[..|b| - 1], b[|b| - 1];
      PushedConcat(a, init);
      BooksAfter(a + init, e, 0);
      BooksAfter(init, e, 0);
      assert a + b == a + init + [e] && b == init + [e];
    }
  }

  lemma {:induction false} PushedOfOutgoing(sends: seq<Send>)
    ensures Pushed(Uninterrupted.Outgoing(sends)) == GasPushes(sends)
  {
    hide Owed, Pushed, IsGasPush;
    if sends == [] {
      assert Pushed([]) == [] by { PushedOfNothing(); }
    } else {
      var m := Msg(Server, sends[0].dst, sends[0].pkt);
      PushedConcat([Given(m), Sent(m)], Uninterrupted.Outgoing(sends[1..]));
      PushedOfOne(sends[0]);
      PushedOfOutgoing(sends[1..]);
    }
  }

  lemma {:induction false} PushedOfNothing()
    ensures Pushed([]) == []
  {
  }

  lemma {:induction false} PushedOfOne(send: Send)
    ensures var m := Msg(Server, send.dst, send.pkt);
      Pushed([Given(m), Sent(m)]) == if IsGasPush(send.pkt) then [send] else []
  {
    hide Owed;
    var m := Msg(Server, send.dst, send.pkt);
    BooksAfter([], Given(m), 0);
    BooksAfter([Given(m)], Sent(m), 0);
    assert [] + [Given(m)] == [Given(m)] && [Given(m)] + [Sent(m)] == [Given(m), Sent(m)];
  }

  lemma {:induction false} PushedByHandling(log: Log, m: Msg, sends: seq<Send>)
    ensures Pushed(log + [Handled(m)] + Uninterrupted.Outgoing(sends)) == Pushed(log) + GasPushes(sends)
  {
    hide Pushed, Owed, GasPushes;
    BooksAfter(log, Handled(m), 0);
    PushedConcat(log + [Handled(m)], Uninterrupted.Outgoing(sends));
    PushedOfOutgoing(sends);
    assert Pushed(log) + [] == Pushed(log);
  }

  /** The server, idle, serves one PUBLISH of the gas topic to the alarm. */
  lemma {:induction false} ServerServes(start: Sys, s: Sys, q: Packet, gas: Addr, alarm: Addr) returns (s': Sys)
    requires Leads(start, s) && s.host.udp.Waiting? && Sent(Msg(gas, Server, q)) in s.log
    requires q.mst == PUBLISH && q.rel && q.option == "GAS"
    requires Pushes(PublishSlots(s.host.topics), q) == [Send(Push(q), alarm)]
    ensures Leads(start, s') && s'.motes == s.motes && s'.host.udp.Waiting? && s'.host.topics == s.host.topics
    ensures s'.host.g.ackTypeWanted == PUSHACK && !s'.host.g.ackRcv
    ensures Pushed(s'.log) == Pushed(s.log) + [Send(Push(q), alarm)]
    ensures Sent(Msg(Server, alarm, Push(q))) in s'.log && NewlyHandled(s.log, s'.log, {Msg(gas, Server, q)})
  {
    hide Leads, Pushes, PublishSlots, Pushed, Uninterrupted.Outgoing, Publishes, Push, PubAck;
    var ack, push := Send(PubAck(), gas), Send(Push(q), alarm);
    PushShape(q);
    PublishIsAnswered(s.host.topics, q, gas);
    s' := ServerHandles(start, s, Msg(gas, Server, q));
    var replies := HostSpec.Replies(s.host.topics, q, gas);
    assert replies == [ack, push] && replies[1] == push && [ack, push][1..] == [push] && [push][1..] == [];
    PushedByHandling(s.log, Msg(gas, Server, q), replies);
    assert GasPushes([push]) == [push] && GasPushes([ack, push]) == [push];
    var g := HostSpec.TakeAck(s.host.g, q);
    assert HostSpec.AfterSends(g, [ack, push]) == HostSpec.SendPacket(g, push) by {
      assert HostSpec.AfterSends(HostSpec.SendPacket(g, push), []) == HostSpec.SendPacket(g, push);
      assert HostSpec.AfterSends(g, [push]) == HostSpec.SendPacket(g, push);
    }
  }

  lemma {:induction false} PushShape(q: Packet)
    requires q.rel && q.option == "GAS"
    ensures IsGasPush(Push(q)) && Push(q).rel && !IsGasPush(PubAck()) && !PubAck().rel
  {
  }

  /** The same PUBLISH, delivered k times. */
  lemma {:induction false} ServerServesOften(start: Sys, s: Sys, q: Packet, gas: Addr, alarm: Addr, k: nat)
    returns (s': Sys)
    requires Leads(start, s) && s.host.udp.Waiting? && Sent(Msg(gas, Server, q)) in s.log
    requires q.mst == PUBLISH && q.rel && q.option == "GAS" && k >= 1
    requires Pushes(PublishSlots(s.host.topics), q) == [Send(Push(q), alarm)]
    ensures Leads(start, s') && s'.motes == s.motes && s'.host.udp.Waiting? && s'.host.topics == s.host.topics
    ensures |Pushed(s'.log)| == |Pushed(s.log)| + k
    ensures Sent(Msg(Server, alarm, Push(q))) in s'.log && NewlyHandled(s.log, s'.log, {Msg(gas, Server, q)})
    decreases k
  {
    hide Leads, Pushes, PublishSlots, Pushed, Push;
    s' := ServerServes(start, s, q, gas, alarm);
    if k > 1 { s' := ServerServesOften(start, s', q, gas, alarm, k - 1); }
  }

  /** A node answers a push. */
  lemma {:induction false} NodePushAcks(start: Sys, s: Sys, id: nat, p: Packet) returns (s': Sys)
    requires Leads(start, s) && id < |s.motes| && p.mst == PUSH && Sent(Msg(Server, Mote(id), p)) in s.log
    ensures Leads(start, s') && OnlyNode(s, s', id) && s'.host == s.host
    ensures s' == Apply(s, MoteReceives(Msg(Server, Mote(id), p)))
    ensures Sent(Msg(Mote(id), Server, PushAck())) in s'.log
    ensures NewlyHandled(s.log, s'.log, {Msg(Server, Mote(id), p)})
  {
    hide Leads, MoteSpec.AfterSends, MoteSpec.TakeAck, CallbackEvents, PushAck;
    var m := Msg(Server, Mote(id), p);
    s' := Follow(start, s, MoteReceives(m));
    var out := MoteSpec.Replies(s.motes[id].topics, p, Server);
    assert out == [Send(PushAck(), Server)];
    assert SentBy(Mote(id), out)[0] == Sent(Msg(Mote(id), Server, PushAck()));
    CallbackHandlesNothing(s'.motes[id], id);
  }

  lemma {:induction false} NodeStepPushesNothing(s: Sys, step: Step)
    requires IsNodeStep(step)
    ensures Pushed(Apply(s, step).log) == Pushed(s.log)
  {
    hide Apply, Pushed, Owed;
    var es := NodeStepIsSilent(s, step);
    SilentBooks(s.log, es, 0);
  }

  /** As long as no PUBLISH has been handled nothing has been pushed for a node. */
  lemma {:induction false} NothingPushedYet(cfg: Config, s: Sys)
    requires CanReach(cfg, s) && s.host.udp.Waiting?
    requires forall m: Msg :: m.dst == Server && m.pkt.mst == PUBLISH ==> Handled(m) !in s.log
    ensures Pushed(s.log) == []
  {
    hide Continue, Owed, Pushed;
    var steps :| Continue(Init(cfg), steps) == s;
    ServedExactly(cfg, steps);
    NothingOwed(s.log, cfg.serverTopics);
  }

  lemma {:induction false} NothingOwed(log: Log, n: nat)
    requires forall m: Msg :: m.dst == Server && m.pkt.mst == PUBLISH ==> Handled(m) !in log
    ensures Owed(log, n) == []
  {
    if log != [] {
      var before, last := log[..|log| - 1], log[|log| - 1];
      assert log == before + [last];
      NothingOwed(before, n);
    }
  }

  /** The alarm has answered a push of the first value; k pushes have been given, the last of
      the second value, which the alarm has not handled. */
  lemma {:induction false} LastPushGiven(cfg: Config, alarm: nat, gas: nat, k: nat) returns (s: Sys)
    requires IsKind(cfg, alarm, MoteSpec.Alarm) && IsKind(cfg, gas, MoteSpec.Gas) && cfg.serverTopics >= 1 && k >= 2
    ensures CanReach(cfg, s) && s.host.udp.Waiting? && s.host.g.ackTypeWanted == PUSHACK && !s.host.g.ackRcv
    ensures Sent(Msg(Mote(alarm), Server, PushAck())) in s.log
    ensures |Pushed(s.log)| == k && Pushed(s.log)[k - 1] == Send(Push(Publish("GAS", Dec(2))), Mote(alarm))
    ensures Handled(Msg(Server, Mote(alarm), Push(Publish("GAS", Dec(2))))) !in s.log
  {
    hide Leads, Register, Dec, Publish, Push, Publishes, Init, Pushes, PublishSlots, WellFormed, PubAck, PushAck,
         Pushed, Uninterrupted.Outgoing, HostSpec.AfterSends, NewlyHandled;
    var start := Init(cfg);
    var q1, q2 := Publish("GAS", Dec(1)), Publish("GAS", Dec(2));
    ValueShapes(q1, 1);
    ValueShapes(q2, 2);
    var s1 := AlarmAndGasReady(cfg, alarm, gas);
    ServesFirst(s1.host.topics, q1, Mote(alarm));
    ServesFirst(s1.host.topics, q2, Mote(alarm));
    var s2 := ServerServesOften(start, s1, q1, Mote(gas), Mote(alarm), k - 1);
    var s3 := NodePushAcks(start, s2, alarm, Push(q1));
    NodeStepPushesNothing(s2, MoteReceives(Msg(Server, Mote(alarm), Push(q1))));
    var s4 := GasPublishes(start, s3, gas);
    NodeStepPushesNothing(s3, MotePeriod(gas));
    s := ServerServes(start, s4, q2, Mote(gas), Mote(alarm));
    Grew(s3.log, s4.log, {});
    Grew(s4.log, s.log, {Msg(Mote(gas), Server, q2)});
    PushesDiffer();
    LastPushUnhandled([s1.log, s2.log, s3.log, s4.log, s.log], Mote(gas), Mote(alarm), q1, q2);
  }

  /** Then the PUSHACK arrives (again) and counts for the last push. */
  lemma {:induction false} OldPushAckCounts(cfg: Config, alarm: nat, gas: nat, k: nat) returns (s: Sys)
    requires IsKind(cfg, alarm, MoteSpec.Alarm) && IsKind(cfg, gas, MoteSpec.Gas) && cfg.serverTopics >= 1 && k >= 2
    ensures CanReach(cfg, s) && s.host.g.ackTypeWanted == PUSHACK && s.host.g.ackRcv
    ensures |Pushed(s.log)| == k
    ensures var last := Pushed(s.log)[k - 1];
      last == Send(Push(Publish("GAS", Dec(2))), Mote(alarm)) && Handled(Msg(Server, last.dst, last.pkt)) !in s.log
  {
    hide Leads, Dec, Publish, Push, Publishes, Init, PushAck, Pushed, Uninterrupted.Outgoing, HostSpec.AfterSends;
    var s1 := LastPushGiven(cfg, alarm, gas, k);
    var m := Msg(Mote(alarm), Server, PushAck());
    s := ServerHandles(Init(cfg), s1, m);
    PushAckIsUnanswered(s1.host.topics, s1.host.g, m.src);
    PushedByHandling(s1.log, m, []);
    assert Pushed(s1.log) + [] == Pushed(s1.log);
  }

  lemma {:induction false} ValueShapes(q: Packet, v: nat)
    requires q == Publish("GAS", Dec(v))
    ensures q.mst == PUBLISH && q.rel && q.option == "GAS" && Push(q).mst == PUSH
  {
  }

  lemma {:induction false} PushAckIsUnanswered(t: Table, g: HostSpec.Globals, from: Addr)
    requires g.ackTypeWanted == PUSHACK && !g.ackRcv
    ensures HostSpec.Replies(t, PushAck(), from) == []
    ensures HostSpec.AfterSends(HostSpec.TakeAck(g, PushAck()), []) == g.(ackRcv := true)
    ensures GasPushes([]) == []
  {
  }

  lemma {:induction false} PushesDiffer()
    ensures Push(Publish("GAS", Dec(1))) != Push(Publish("GAS", Dec(2)))
  {
    assert Push(Publish("GAS", Dec(1))).payload[4] == '1' && Push(Publish("GAS", Dec(2))).payload[4] == '2';
  }

  /** None of the packets handled in the last four pieces is the last push. */
  lemma {:induction false} LastPushUnhandled(logs: seq<Log>, gas: Addr, alarm: Addr, q1: Packet, q2: Packet)
    requires |logs| == 5 && alarm.Mote?
    requires NewlyHandled(logs[0], logs[1], {Msg(gas, Server, q1)})
    requires NewlyHandled(logs[1], logs[2], {Msg(Server, alarm, Push(q1))})
    requires NewlyHandled(logs[2], logs[3], {})
    requires NewlyHandled(logs[3], logs[4], {Msg(gas, Server, q2)})
    requires Push(q1) != Push(q2) && Handled(Msg(Server, alarm, Push(q2))) !in logs[0]
    ensures Handled(Msg(Server, alarm, Push(q2))) !in logs[4]
  {
    hide Push, PushAck;
  }

  /** The alarm has subscribed, the gas sensor is connected and its first value is on its
      way; nothing has been pushed. */
  lemma {:induction false} AlarmAndGasReady(cfg: Config, alarm: nat, gas: nat) returns (s: Sys)
    requires IsKind(cfg, alarm, MoteSpec.Alarm) && IsKind(cfg, gas, MoteSpec.Gas) && cfg.serverTopics >= 1
    ensures CanReach(cfg, s) && |s.motes| == |cfg.kinds| && s.host.udp.Waiting?
    ensures s.motes[gas].connected && s.motes[gas].kind == MoteSpec.Gas && s.motes[gas].gasValue == 1
    ensures Sent(Msg(Mote(gas), Server, Publish("GAS", Dec(1)))) in s.log && Pushed(s.log) == []
    ensures WellFormed(s.host.topics) && s.host.topics != [] && s.host.topics[0] == Some(NewTopic("GAS", Mote(alarm)))
    ensures forall m: Msg :: m.pkt.mst == PUSH ==> Handled(m) !in s.log
  {
    hide Leads, Register, Dec, Publishes, Init, WellFormed, Pushed, NewlyHandled, HostSpec.TakeAck, Handshake;
    var start := Init(cfg);
    AtPowerOn(cfg);
    InitHost(cfg);
    TopicsOfKinds(MoteSpec.Alarm);
    FirstSlot(cfg.serverTopics, "GAS", Mote(alarm));
    var s1 := NodeSubscribes(start, start, alarm);
    var s2 := NodeJoins(start, s1, gas);
    s := GasPublishes(start, s2, gas);
    OnlySetup(start.log, s1.log, s2.log, s.log, alarm, gas);
    NothingPushedYet(cfg, s);
  }

  lemma {:induction false} OnlySetup(log: Log, log1: Log, log2: Log, log3: Log, alarm: nat, gas: nat)
    requires log == [] && NewlyHandled(log, log1, {Msg(Mote(alarm), Server, Subscribe("GAS"))})
    requires NewlyHandled(log1, log2, Handshake(gas)) && NewlyHandled(log2, log3, {})
    ensures forall m: Msg :: m.pkt.mst in {PUSH, PUBLISH} ==> Handled(m) !in log3
  {
    assert Subscribe("GAS").mst == SUBSCRIBE && HelloInit().mst == HELLO && HelloResponse().mst == HELLO;
    assert Connect().mst == CONNECT && ConnAck().mst == CONNACK;
  }

  // ---------- Subscribers that are not served

  /** Two alarms subscribe and are acknowledged; the gas value is pushed to the first, and the
      server is idle again without ever having pushed anything to the second. */
  lemma {:induction false} SecondAlarmIsNotServed(cfg: Config, first: nat, second: nat, gas: nat) returns (s: Sys)
    requires IsKind(cfg, first, MoteSpec.Alarm) && IsKind(cfg, second, MoteSpec.Alarm) && first != second
    requires IsKind(cfg, gas, MoteSpec.Gas) && cfg.serverTopics >= 1
    ensures CanReach(cfg, s) && s.host.udp.Waiting?
    ensures SubscribedTo(s.log, "GAS", Mote(first)) && SubscribedTo(s.log, "GAS", Mote(second))
    ensures var q := Publish("GAS", Dec(1));
      Handled(Msg(Mote(gas), Server, q)) in s.log && Given(Msg(Server, Mote(first), Push(q))) in s.log
    ensures forall m: Msg :: m.dst == Mote(second) && m.pkt.mst == PUSH ==> Given(m) !in s.log
  {
    hide Register, Dec, Publish, Push, Leads, Publishes, Init, Handshake, Pushes, PublishSlots, WellFormed, PubAck,
         Uninterrupted.Outgoing, HostSpec.AfterSends;
    var start := Init(cfg);
    AtPowerOn(cfg);
    InitHost(cfg);
    TopicsOfKinds(MoteSpec.Alarm);
    var q := Publish("GAS", Dec(1));
    GasPush(q);
    FirstSlot(cfg.serverTopics, "GAS", Mote(first));
    var s1 := NodeSubscribes(start, start, first);
    var s2 := NodeSubscribes(start, s1, second);
    assert s2.host.topics == s1.host.topics by { SecondChangesNothing(s1.host.topics, "GAS", Mote(second)); }
    var s3 := NodeJoins(start, s2, gas);
    var s4 := GasPublishes(start, s3, gas);
    ServesFirst(s4.host.topics, q, Mote(first));
    PublishIsAnswered(s4.host.topics, q, Mote(gas));
    s := ServerHandles(start, s4, Msg(Mote(gas), Server, q));
    assert Send(Push(q), Mote(first)) in HostSpec.Replies(s4.host.topics, q, Mote(gas)) by {
      assert ([Send(PubAck(), Mote(gas))] + [Send(Push(q), Mote(first))])[1] == Send(Push(q), Mote(first));
    }
    assert s.host.topics == s1.host.topics;
    OnlyTheTableIsServed(cfg, s, Mote(first), second);
  }

  lemma {:induction false} SecondChangesNothing(t: Table, name: string, from: Addr)
    requires Find(t, name) < |t|
    ensures Register(t, name, from) == t
  {
  }

  /** With the gas topic in the table for one address, an alarm elsewhere is pushed nothing. */
  lemma {:induction false} OnlyTheTableIsServed(cfg: Config, s: Sys, served: Addr, other: nat)
    requires CanReach(cfg, s) && IsKind(cfg, other, MoteSpec.Alarm) && served != Mote(other)
    requires s.host.topics != [] && s.host.topics[0] == Some(NewTopic("GAS", served))
    ensures forall m: Msg :: m.dst == Mote(other) && m.pkt.mst == PUSH ==> Given(m) !in s.log
  {
    hide Continue, Owed, Pushed, Pending, UdpServed, MenuServed, PushGiven, HostMay, Causal, MoteOk, HostOk, Serves;
    var steps :| Continue(Init(cfg), steps) == s;
    ServerReachable(cfg, steps);
    ReachableState(cfg, s);
    forall m: Msg | m.dst == Mote(other) && m.pkt.mst == PUSH ensures Given(m) !in s.log {
      if Given(m) in s.log {
        CauseOf(cfg, s.log, Given(m));
        PushIsPushOf(s.log, m.pkt, m.dst);
        SubscribersKind(cfg, s.log, m.pkt.option, m.dst);
        TopicsOfKinds(MoteSpec.Alarm);
        ServedFromFirstSlot(s.host.topics, Send(m.pkt, m.dst), served);
      }
    }
  }

  lemma {:induction false} ServedFromFirstSlot(t: Table, send: Send, served: Addr)
    requires SendServed(t, send) && send.pkt.mst == PUSH && t != []
    requires t[0] == Some(NewTopic(send.pkt.option, served))
    ensures send.dst == served
  {
    assert IsAt(t, 0, send.pkt.option);
  }

  /** The alarm is the third to subscribe. It is registered and acknowledged, the gas value is
      handled, the server is idle again, and nothing was pushed about gas. */
  lemma {:induction false} LateAlarmIsNotServed(
    cfg: Config, light: nat, washer: nat, alarm: nat, gas: nat) returns (s: Sys)
    requires IsKind(cfg, light, MoteSpec.Light) && IsKind(cfg, washer, MoteSpec.Washer)
    requires IsKind(cfg, alarm, MoteSpec.Alarm) && IsKind(cfg, gas, MoteSpec.Gas) && cfg.serverTopics >= 3
    ensures CanReach(cfg, s) && s.host.udp.Waiting?
    ensures |s.host.topics| > 2 && s.host.topics[2] == Some(NewTopic("GAS", Mote(alarm)))
    ensures SubscribedTo(s.log, "GAS", Mote(alarm))
    ensures Handled(Msg(Mote(gas), Server, Publish("GAS", Dec(1)))) in s.log
    ensures forall m: Msg :: IsGasPush(m.pkt) ==> Given(m) !in s.log
  {
    hide Register, Dec, Publish, Push, Leads, Publishes, Init, Handshake, Pushes, PublishSlots, WellFormed, PubAck,
         Uninterrupted.Outgoing, HostSpec.AfterSends, HostSpec.Replies, IsGasPush;
    var start := Init(cfg);
    AtPowerOn(cfg);
    InitHost(cfg);
    TopicsOfKinds(MoteSpec.Light);
    TopicsOfKinds(MoteSpec.Alarm);
    var q := Publish("GAS", Dec(1));
    GasPush(q);
    var s1 := NodeSubscribes(start, start, light);
    var s2 := NodeSubscribes(start, s1, washer);
    var s3 := NodeSubscribes(start, s2, alarm);
    ThreeTopics(cfg.serverTopics, Mote(light), Mote(washer), Mote(alarm));
    var s4 := NodeJoins(start, s3, gas);
    var s5 := GasPublishes(start, s4, gas);
    s := ServerHandles(start, s5, Msg(Mote(gas), Server, q));
    LateTopicIsNotPushed(cfg, s);
  }

  lemma {:induction false} ThreeTopics(n: nat, light: Addr, washer: Addr, alarm: Addr)
    requires n >= 3
    ensures
      var t := Register(Register(Register(EmptyTable(n), "Light", light), MoteSpec.TopicOf(MoteSpec.Washer), washer),
                        "GAS", alarm);
      |t| == n && Find(t, "GAS") == 2 && t[2] == Some(NewTopic("GAS", alarm))
  {
    var w := MoteSpec.TopicOf(MoteSpec.Washer);
    var t0 := EmptyTable(n);
    var t1 := Register(t0, "Light", light);
    var t2 := Register(t1, w, washer);
    assert "Light"[0] == 'L' && w[0] == 'W' && "GAS"[0] == 'G';
    assert FirstFree(t0) == 0 && Find(t0, "Light") == n && Find(t0, w) == n && Find(t0, "GAS") == n;
    RegisterKeepsWellFormed(t0, "Light", light);
    RegisterKeepsWellFormed(t1, w, washer);
    FindAfterRegister(t0, "Light", light, w);
    FindAfterRegister(t0, "Light", light, "GAS");
    FreeAfterRegister(t0, "Light", light);
    FindAfterRegister(t1, w, washer, "GAS");
    FreeAfterRegister(t1, w, washer);
    FindAfterRegister(t2, "GAS", alarm, "GAS");
  }

  /** A topic registered beyond the second slot has never been pushed for a node. */
  lemma {:induction false} LateTopicIsNotPushed(cfg: Config, s: Sys)
    requires CanReach(cfg, s) && 2 <= Find(s.host.topics, "GAS") < |s.host.topics|
    ensures forall m: Msg :: IsGasPush(m.pkt) ==> Given(m) !in s.log
  {
    hide Continue, Requests, TableAfter, WellFormed, FirstRequest, Rank, Find;
    var steps :| Continue(Init(cfg), steps) == s;
    TableIsHistory(cfg, steps);
    assert SlotIsHistory(s.host.topics, Requests(s.log), "GAS");
    forall m: Msg | IsGasPush(m.pkt) ensures Given(m) !in s.log {
      if Given(m) in s.log { OnlyFirstSubscriberIsPushed(cfg, steps, m); }
    }
  }

  // ---------- An alarm

  /** The alarm subscribes, the gas sensor connects and publishes ten values, of which only
      the last arrives; it is pushed to the alarm, and the alarm goes off. */
  lemma {:induction false} AlarmRings(cfg: Config, alarm: nat, gas: nat) returns (s: Sys)
    requires IsKind(cfg, alarm, MoteSpec.Alarm) && IsKind(cfg, gas, MoteSpec.Gas) && cfg.serverTopics >= 1
    ensures CanReach(cfg, s) && AlarmRaised(alarm, 10) in s.log
  {
    hide Register, Dec, Publish, Push, Leads, Publishes, Init, Handshake, Pushes, PublishSlots, WellFormed, PubAck,
         Uninterrupted.Outgoing, HostSpec.AfterSends, MoteSpec.NextGas;
    var start := Init(cfg);
    AtPowerOn(cfg);
    InitHost(cfg);
    TopicsOfKinds(MoteSpec.Alarm);
    FirstSlot(cfg.serverTopics, "GAS", Mote(alarm));
    var s1 := NodeSubscribes(start, start, alarm);
    var s2 := NodeJoins(start, s1, gas);
    NothingPublished(cfg, s2, gas);
    var s3 := GasPublishesOften(start, s2, gas, 9);
    NinthValue(cfg, s3, gas);
    var s4 := GasPublishes(start, s3, gas);
    var q := Publish("GAS", Dec(10));
    TenthPush(q);
    ServesFirst(s4.host.topics, q, Mote(alarm));
    PublishIsAnswered(s4.host.topics, q, Mote(gas));
    var s5 := ServerHandles(start, s4, Msg(Mote(gas), Server, q));
    assert Send(Push(q), Mote(alarm)) in HostSpec.Replies(s4.host.topics, q, Mote(gas)) by {
      assert ([Send(PubAck(), Mote(gas))] + [Send(Push(q), Mote(alarm))])[1] == Send(Push(q), Mote(alarm));
    }
    s := AlarmReads(start, s5, alarm, Push(q));
  }

  lemma {:induction false} NinthValue(cfg: Config, s: Sys, id: nat)
    requires CanReach(cfg, s) && id < |s.motes| && Publishes(s.log, id) == 9
    ensures MoteSpec.NextGas(s.motes[id].gasValue) == 10
  {
    hide Leads, Publishes, HostOk, Causal, AckOk, PushedOk;
    ReachableState(cfg, s);
    assert MoteOk(cfg, s.log, id, s.motes[id]);
  }

  lemma {:induction false} TenthPush(q: Packet)
    requires q == Publish("GAS", Dec(10))
    ensures q.mst == PUBLISH && q.rel && q.option == "GAS"
    ensures Push(q).mst == PUSH && Atoi(Push(q).payload) == 10
  {
    PushedValue(Dec(10), "GAS");
    ValueRoundTrip(10, 0, "");
    assert Relayed(Dec(10), 0) == Dec(10);
  }

  lemma {:induction false} AlarmReads(start: Sys, s: Sys, id: nat, p: Packet) returns (s': Sys)
    requires Leads(start, s) && id < |s.motes| && s.motes[id].kind == MoteSpec.Alarm
    requires p.mst == PUSH && Atoi(p.payload) >= 10 && Sent(Msg(Server, Mote(id), p)) in s.log
    ensures Leads(start, s') && AlarmRaised(id, Atoi(p.payload)) in s'.log
  {
    hide Leads, Atoi, MoteSpec.AfterSends;
    s' := Follow(start, s, MoteReceives(Msg(Server, Mote(id), p)));
    assert s'.log[|s'.log| - 1] == AlarmRaised(id, Atoi(p.payload));
  }
}
