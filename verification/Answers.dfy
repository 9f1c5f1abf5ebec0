/** What is always still possible: from every reachable state a request can be resent,
    handled and acknowledged, a node can connect, a ping can be answered, and an
    unacknowledged push can be resent any number of times. */
module Answers {
  import opened Packets
  import opened Topics
  import opened Network
  import opened Causality
  import opened Invariant
  import opened HostSteps
  import opened Served
  import opened Scenarios
  import opened NodeSlots
  import opened Guarantees
  import HostSpec
  import MoteSpec
  import MoteSteps
  import Uninterrupted

  // ---------- What acknowledges a request

  /** The first answer of both ports to a reliable request goes to its sender, is not
      reliable itself, and is of the request's type plus one. */
  lemma {:induction false} RequestIsAcknowledged(t: Table, p: Packet, src: Addr)
    requires p.rel && p.mst in {PUBLISH, SUBSCRIBE, CONNECT}
    ensures var out := HostSpec.Replies(t, p, src);
      out != [] && out[0].dst == src && out[0].pkt.mst == p.mst + 1 && !out[0].pkt.rel
    ensures MoteSpec.Replies(t, p, src) == HostSpec.Replies(t, p, src)
  {
    hide Pushes, PublishSlots;
  }

  /** What is answered, by the number of the type, written out; a PUBLISH that is not reliable
      is not acknowledged, and the other types are answered by nothing. */
  lemma {:induction false} AnswersInFull(t: Table, p: Packet, src: Addr)
    ensures var out := HostSpec.Replies(t, p, src);
      && (p.mst == 0 ==> out == [Send(if p.option == "init" then Packet(0, false, "response", "  testpayload")
                                      else Packet(6, true, "CONNECT", "  testpayload"), src)])
      && (p.mst == 1 ==> out == (if p.rel then [Send(Packet(2, false, "", "  "), src)] else []) +
                                Pushes(PublishSlots(t), p))
      && (p.mst == 3 ==> out == [Send(Packet(4, false, "", "  "), src)])
      && (p.mst == 6 ==> out == [Send(Packet(7, false, "CONNACK", "  testpayload"), src)])
      && (p.mst == 10 ==> out == [Send(Packet(11, false, "PINGRESP", "  pingRespTestPayload"), src)])
      && (p.mst !in {0, 1, 3, 6, 10} ==> out == [])
    ensures p.mst == 12 ==> MoteSpec.Replies(t, p, src) == [Send(Packet(13, false, "", "  "), src)]
    ensures p.mst != 12 ==> MoteSpec.Replies(t, p, src) == HostSpec.Replies(t, p, src)
  {
    hide Pushes, PublishSlots;
    assert "  " + "" == "  " && "  " + "testpayload" == "  testpayload";
    assert "  " + "pingRespTestPayload" == "  pingRespTestPayload";
  }

  /** An acknowledgement is answered by nothing. */
  lemma {:induction false} AckIsTaken(st: MoteSpec.State, p: Packet)
    requires p.mst in {PUBACK, SUBACK, CONNACK} && st.ack.wanted == p.mst
    ensures MoteSpec.RxCallback(st, p, Server).state.ack == st.ack.(rcv := true)
  {
    hide MoteSpec.WasherCheck;
    WasherKeepsAck(MoteSpec.HandleMessage(st.(ping := MoteSpec.StartPing(st.ping, Server)), p, Server).state);
  }

  lemma {:induction false} WasherKeepsAck(st: MoteSpec.State)
    ensures MoteSpec.WasherCheck(st).ack == st.ack
  {
  }

  /** The server handles a packet and its first answer goes out. */
  lemma {:induction false} ServerAnswersFirst(start: Sys, s: Sys, m: Msg) returns (s': Sys, answer: Msg)
    requires Leads(start, s) && s.host.udp.Waiting? && Sent(m) in s.log && m.dst == Server
    requires var out := HostSpec.Replies(s.host.topics, m.pkt, m.src); out != [] && !out[0].pkt.rel
    ensures Leads(start, s') && s'.motes == s.motes
    ensures var first := HostSpec.Replies(s.host.topics, m.pkt, m.src)[0]; answer == Msg(Server, first.dst, first.pkt)
    ensures Sent(answer) in s'.log && Handled(m) in s'.log && forall e :: e in s.log ==> e in s'.log
  {
    hide Leads, HostSpec.Replies, HostSpec.TopicsAfter, HostSpec.TakeAck;
    var out := HostSpec.Replies(s.host.topics, m.pkt, m.src);
    var s1 := ServerDispatches(start, s, m);
    assert out == [out[0]] + out[1..];
    s' := FirstAnswerSent(start, s1, out[0], out[1..]);
    answer := Msg(Server, out[0].dst, out[0].pkt);
  }

  /** From any reachable state in which a node's request is not acknowledged there is a way to
      go on in which the server handles it, answers it, and the node takes the answer: the
      flag is set, for that very packet. Nothing need be lost for good. */
  lemma {:induction false} RequestCanBeAcknowledged(cfg: Config, s: Sys, id: nat) returns (s': Sys, answer: Packet)
    requires CanReach(cfg, s) && id < |s.motes| && s.motes[id].ack.slot.Some? && !s.motes[id].ack.rcv
    ensures Leads(s, s') && |s'.motes| == |s.motes|
    ensures s'.motes[id].ack == s.motes[id].ack.(rcv := true)
    ensures var p := s.motes[id].ack.slot.value.pkt;
      && Handled(Msg(Mote(id), Server, p)) in s'.log
      && answer.mst == p.mst + 1 && Handled(Msg(Server, Mote(id), answer)) in s'.log
  {
    hide Leads, Publishes, HostSpec.Replies, MoteSpec.RxCallback, Held, NewlyHandled;
    var a := s.motes[id].ack;
    var m := Msg(Mote(id), Server, a.slot.value.pkt);
    StandStill(s);
    SlotIsRequest(cfg, s, id);
    var s1 := Follow(s, s, MoteAckTimer(id));
    assert s1.log == s.log + [] + SentBy(Mote(id), [a.slot.value]) + [];
    assert SentBy(Mote(id), [a.slot.value])[0] == Sent(m);
    assert Sent(m) in s1.log;
    var s2 := UdpFinishes(s, s1);
    NewlyGrew(s1.log, s2.log, Held(s1.host.udp));
    RequestIsAcknowledged(s2.host.topics, m.pkt, m.src);
    var s3, reply := ServerAnswersFirst(s, s2, m);
    answer := reply.pkt;
    AckIsTaken(s3.motes[id], answer);
    s' := Follow(s, s3, MoteReceives(reply));
    TakesAnswer(s3, s', id, reply);
  }

  lemma {:induction false} NewlyGrew(log: Log, log': Log, ms: set<Msg>)
    requires NewlyHandled(log, log', ms)
    ensures forall e :: e in log ==> e in log'
  {
  }

  lemma {:induction false} TakesAnswer(s: Sys, s': Sys, id: nat, m: Msg)
    requires id < |s.motes| && m.dst == Mote(id) && Sent(m) in s.log && s' == Apply(s, MoteReceives(m))
    ensures |s'.motes| == |s.motes| && s'.motes[id] == MoteSpec.RxCallback(s.motes[id], m.pkt, m.src).state
    ensures Handled(m) in s'.log && forall e :: e in s.log ==> e in s'.log
  {
    hide MoteSpec.RxCallback, CallbackEvents;
    var r := MoteSpec.RxCallback(s.motes[id], m.pkt, m.src);
    assert (s.log + [Handled(m)])[|s.log|] == Handled(m);
    assert s'.log == s.log + [Handled(m)] + SentBy(Mote(id), r.out) + CallbackEvents(r.state, id);
  }

  /** What a node's slot holds is a request to the server, and it will be resent. */
  lemma {:induction false} SlotIsRequest(cfg: Config, s: Sys, id: nat)
    requires CanReach(cfg, s) && id < |s.motes| && s.motes[id].ack.slot.Some? && !s.motes[id].ack.rcv
    ensures var a := s.motes[id].ack;
      && a.running && a.slot.value.dst == Server && a.wanted == a.slot.value.pkt.mst + 1
      && a.slot.value.pkt.rel && a.slot.value.pkt.mst in {PUBLISH, SUBSCRIBE, CONNECT}
  {
    hide Continue, Causal, HostOk, Publishes, MoteMay, PushedOk;
    var steps :| Continue(Init(cfg), steps) == s;
    SlotsReachable(cfg, steps);
    ReachableState(cfg, s);
    assert MoteOk(cfg, s.log, id, s.motes[id]) && SlotTold(s.log, id, s.motes[id]);
    MoteSteps.ReliableTypes(cfg, s.log, id, s.motes[id].ack.slot.value.pkt);
  }

  // ---------- Connecting and pinging

  /** From any reachable state any node can be connected. */
  lemma {:induction false} NodeCanConnect(cfg: Config, s: Sys, id: nat) returns (s': Sys)
    requires CanReach(cfg, s) && id < |s.motes|
    ensures Leads(s, s') && |s'.motes| == |s.motes| && s'.motes[id].connected
  {
    hide Leads, Publishes, NewlyHandled;
    StandStill(s);
    s' := s;
    if !s.motes[id].connected {
      s' := UdpFinishes(s, s);
      s' := NodeJoins(s, s', id);
    }
  }

  lemma {:induction false} PingIsAnswered(t: Table, src: Addr)
    ensures PingReq().mst == PINGREQ && HostSpec.Replies(t, PingReq(), src) == [Send(PingResp(), src)]
    ensures PingResp().mst == PINGRESP && !PingResp().rel
  {
  }

  lemma {:induction false} PongStops(st: MoteSpec.State, p: Packet)
    requires p.mst == PINGRESP
    ensures !MoteSpec.RxCallback(st, p, Server).state.ping.running
  {
  }

  /** From any reachable state in which a node's watchdog runs it can be stopped by the answer
      to its next ping. */
  lemma {:induction false} PingCanBeAnswered(cfg: Config, s: Sys, id: nat) returns (s': Sys)
    requires CanReach(cfg, s) && id < |s.motes| && s.motes[id].ping.running
    ensures Leads(s, s') && |s'.motes| == |s.motes| && !s'.motes[id].ping.running
    ensures exists q: Packet :: q.mst == PINGREQ && Handled(Msg(Mote(id), Server, q)) in s'.log
  {
    hide Leads, Publishes, HostSpec.Replies, MoteSpec.RxCallback, Held, NewlyHandled, PingReq, PingResp, Disconnect;
    var ping := Msg(Mote(id), Server, PingReq());
    StandStill(s);
    PingsTheServer(cfg, s, id);
    var s1 := Follow(s, s, MotePingTimer(id));
    var out := MoteSpec.PingTick(s.motes[id]).out;
    assert out[0] == Send(PingReq(), Server);
    assert SentBy(Mote(id), out)[0] == Sent(ping);
    assert s1.log == s.log + [] + SentBy(Mote(id), out) + [];
    assert Sent(ping) in s1.log;
    var s2 := UdpFinishes(s, s1);
    NewlyGrew(s1.log, s2.log, Held(s1.host.udp));
    PingIsAnswered(s2.host.topics, Mote(id));
    var s3, reply := ServerAnswersFirst(s, s2, ping);
    PongStops(s3.motes[id], reply.pkt);
    s' := Follow(s, s3, MoteReceives(reply));
    TakesAnswer(s3, s', id, reply);
  }

  lemma {:induction false} PingsTheServer(cfg: Config, s: Sys, id: nat)
    requires CanReach(cfg, s) && id < |s.motes|
    ensures s.motes[id].ping.dst == Server
  {
    hide Leads, Causal, HostOk, Publishes, AckOk, PushedOk;
    ReachableState(cfg, s);
    assert MoteOk(cfg, s.log, id, s.motes[id]);
  }

  // ---------- The ack threads of the server

  /** How often this packet was given to the network. */
  function TimesSent(log: Log, m: Msg): nat {
    if log == [] then 0
    else TimesSent(log[..|log| - 1], m) + if log[|log| - 1] == Sent(m) then 1 else 0
  }

  lemma {:induction false} TimesSentAfter(log: Log, e: Event, m: Msg)
    ensures TimesSent(log + [e], m) == TimesSent(log, m) + if e == Sent(m) then 1 else 0
  {
    assert (log + [e])[..|log|] == log;
  }

  /** The slot, filled with this packet for this address, is not acknowledged. */
  predicate AwaitsAck(g: HostSpec.Globals, m: Msg) {
    !g.ackRcv && g.packetAck == Some(m.pkt) && g.destAddrAck == Some(m.dst) && m.src == Server
  }

  /** An ack thread that sleeps wakes up, sends what the slot holds, and sleeps again. */
  lemma {:induction false} SleeperResends(start: Sys, s: Sys, m: Msg) returns (s': Sys)
    requires Leads(start, s) && s.host.g.sleeping > 0 && AwaitsAck(s.host.g, m)
    ensures Leads(start, s') && s'.motes == s.motes && s'.host == s.host
    ensures TimesSent(s'.log, m) == TimesSent(s.log, m) + 1
  {
    hide Leads, TimesSent;
    var g := s.host.g;
    var k := |g.reading|;
    var s1 := Follow(start, s, AckWakes);
    var s2 := Follow(start, s1, AckReadsPacket);
    assert s2.host.g.reading == g.reading + [HostSpec.HasPacket(m.pkt)];
    s' := Follow(start, s2, AckSends(k));
    assert s2.host.g.reading[..k] + s2.host.g.reading[k + 1..] == g.reading;
    TimesSentAfter(s.log, Sent(m), m);
  }

  lemma {:induction false} SleeperResendsOften(start: Sys, s: Sys, m: Msg, n: nat) returns (s': Sys)
    requires Leads(start, s) && s.host.g.sleeping > 0 && AwaitsAck(s.host.g, m)
    ensures Leads(start, s') && s'.motes == s.motes && s'.host == s.host
    ensures TimesSent(s'.log, m) == TimesSent(s.log, m) + n
    decreases n
  {
    hide Leads, TimesSent, AwaitsAck;
    s' := s;
    if n > 0 {
      s' := SleeperResends(start, s, m);
      s' := SleeperResendsOften(start, s', m, n - 1);
    }
  }

  /** An ack thread in the middle of its send finishes it and goes back to sleep. */
  lemma {:induction false} SomeThreadSleeps(start: Sys, s: Sys, m: Msg) returns (s': Sys)
    requires Leads(start, s) && s.host.g.sleeping + s.host.g.sending + |s.host.g.reading| > 0
    requires AwaitsAck(s.host.g, m)
    ensures Leads(start, s') && s'.motes == s.motes && s'.host.g.sleeping > 0 && AwaitsAck(s'.host.g, m)
    ensures TimesSent(s'.log, m) >= TimesSent(s.log, m)
    ensures s'.host == s.host.(g := s'.host.g) && s'.host.g.ackTypeWanted == s.host.g.ackTypeWanted
  {
    hide Leads, TimesSent;
    s' := s;
    if s.host.g.sleeping == 0 {
      if s.host.g.reading == [] { s' := Follow(start, s, AckReadsPacket); }
      var half := s'.host.g.reading[0];
      assert Completed(s'.host.g, half).Some?;
      TimesSentAfter(s'.log, Sent(Completed(s'.host.g, half).value), m);
      s' := Follow(start, s', AckSends(0));
    }
  }

  /** A push that is not acknowledged is resent for ever: as long as an ack thread is left and
      the flag is not set, there is for every n a way to go on in which the packet of the
      slot is sent n more times to the address of the slot. */
  lemma {:induction false} PushIsResentForEver(cfg: Config, s: Sys, n: nat) returns (s': Sys, m: Msg)
    requires CanReach(cfg, s) && !s.host.g.ackRcv
    requires s.host.g.sleeping + s.host.g.sending + |s.host.g.reading| > 0
    ensures Leads(s, s') && s'.motes == s.motes
    ensures s.host.g.packetAck == Some(m.pkt) && s.host.g.destAddrAck == Some(m.dst) && m.src == Server
    ensures TimesSent(s'.log, m) >= TimesSent(s.log, m) + n
    ensures s'.host == s.host.(g := s'.host.g) && s'.host.g.ackTypeWanted == s.host.g.ackTypeWanted
    ensures AwaitsAck(s'.host.g, m)
  {
    hide Leads, TimesSent, Causal, MoteOk, UdpOk, MenuOk, TableOk, Requests, TableAfter, PacketGiven, DestGiven, HalfOk;
    StandStill(s);
    ReachableState(cfg, s);
    m := Msg(Server, s.host.g.destAddrAck.value, s.host.g.packetAck.value);
    s' := SomeThreadSleeps(s, s, m);
    s' := SleeperResendsOften(s, s', m, n);
  }

  lemma {:induction false} SentAtAll(log: Log, m: Msg)
    requires TimesSent(log, m) >= 1
    ensures Sent(m) in log
  {
    var before, last := log[..|log| - 1], log[|log| - 1];
    assert log == before + [last];
    if last != Sent(m) { SentAtAll(before, m); }
  }

  lemma {:induction false} PushIsAcknowledged(t: Table, p: Packet)
    requires p.mst == PUSH
    ensures MoteSpec.Replies(t, p, Server) == [Send(PushAck(), Server)] && PushAck().mst == PUSH + 1 == PUSHACK
  {
  }

  /** And it can be acknowledged: from any reachable state with an unacknowledged push, an ack
      thread and an idle UDP thread there is a way to go on in which the node of the slot
      handles the push of the slot and its PUSHACK sets the flag. */
  lemma {:induction false} PushCanBeAcknowledged(cfg: Config, s: Sys) returns (s': Sys, m: Msg)
    requires CanReach(cfg, s) && !s.host.g.ackRcv && s.host.g.ackTypeWanted == PUSHACK && s.host.udp.Waiting?
    requires s.host.g.sleeping + s.host.g.sending + |s.host.g.reading| > 0
    ensures Leads(s, s') && s'.host.g.ackRcv && s'.host.g.ackTypeWanted == PUSHACK
    ensures s.host.g.packetAck == Some(m.pkt) && s.host.g.destAddrAck == Some(m.dst)
    ensures s'.host.g.packetAck == Some(m.pkt) && s'.host.g.destAddrAck == Some(m.dst) && Handled(m) in s'.log
  {
    hide Leads, TimesSent, MoteSpec.RxCallback, Publishes, Uninterrupted.Outgoing, PushAck;
    var s1;
    s1, m := PushIsResentForEver(cfg, s, 1);
    SentAtAll(s1.log, m);
    SlotIsForANode(cfg, s, m);
    var st := s1.motes[m.dst.id];
    var s2 := Follow(s, s1, MoteReceives(m));
    TakesAnswer(s1, s2, m.dst.id, m);
    PushIsAcknowledged(st.topics, m.pkt);
    MoteSpec.RxOut(st, m.pkt, Server);
    var ack := Msg(m.dst, Server, PushAck());
    assert SentBy(m.dst, [Send(PushAck(), Server)])[0] == Sent(ack);
    assert Sent(ack) in s2.log;
    s' := ServerHandles(s, s2, ack);
    NothingFollows(s2.host.topics, s2.host.g, m.dst);
  }

  lemma {:induction false} NothingFollows(t: Table, g: HostSpec.Globals, from: Addr)
    requires !g.ackRcv && g.ackTypeWanted == PUSHACK
    ensures HostSpec.Replies(t, PushAck(), from) == []
    ensures HostSpec.AfterSends(HostSpec.TakeAck(g, PushAck()), []) == g.(ackRcv := true)
  {
  }

  lemma {:induction false} SlotIsForANode(cfg: Config, s: Sys, m: Msg)
    requires CanReach(cfg, s) && s.host.g.packetAck == Some(m.pkt) && s.host.g.destAddrAck == Some(m.dst)
    ensures m.pkt.mst == PUSH && m.dst.Mote? && m.dst.id < |s.motes|
  {
    hide Leads, Causal, MoteOk, UdpOk, MenuOk, TableOk, Requests, TableAfter, HostMay;
    ReachableState(cfg, s);
    var q: Packet :| q.mst == PUSH && Given(Msg(Server, m.dst, q)) in s.log;
    CauseOf(cfg, s.log, Given(Msg(Server, m.dst, q)));
    PushIsPushOf(s.log, q, m.dst);
    SubscribersKind(cfg, s.log, q.option, m.dst);
  }

  // ---------- Their number

  /** The reliable packets passed to `sendPacket`. */
  function ReliableGiven(log: Log): nat {
    if log == [] then 0
    else
      var last := log[|log| - 1];
      ReliableGiven(log[..|log| - 1]) + if last.Given? && last.m.pkt.rel then 1 else 0
  }

  /** A send that has entered `sendPacket` and not yet come to `pthread_create`. */
  function BeforeSpawn(job: HostSpec.Job): nat {
    if job.todo != [] && job.pc in {HostSpec.SetWanted, HostSpec.FillPacket, HostSpec.FillDest, HostSpec.Spawn} then 1
    else 0
  }

  function InUdp(udp: HostSpec.Udp): nat { if udp.Working? then BeforeSpawn(udp.job) else 0 }

  function InMenu(menu: HostSpec.Menu): nat { if menu.Scanning? then BeforeSpawn(menu.job) else 0 }

  function Threads(g: HostSpec.Globals): nat { g.sleeping + g.sending + |g.reading| }

  /** How often in a schedule an ack thread woke up, found `ackRcv` set, and ended. */
  function Exits(cfg: Config, steps: seq<Step>): nat {
    if steps == [] then 0
    else
      var before, last := steps[..|steps| - 1], steps[|steps| - 1];
      var g := Exec(cfg, before).host.g;
      Exits(cfg, before) + if last == AckWakes && g.sleeping > 0 && g.ackRcv then 1 else 0
  }

  lemma {:induction false} SilentGiven(log: Log, es: Log)
    requires Silent(es)
    ensures ReliableGiven(log + es) == ReliableGiven(log)
  {
    if es == [] {
      assert log + es == log;
    } else {
      var init := es[..|es| - 1];
      assert Silent(init);
      SilentGiven(log, init);
      assert (log + es)[..|log + es| - 1] == log + init;
    }
  }

  lemma {:induction false} GivenAfter(log: Log, e: Event)
    ensures ReliableGiven(log + [e]) == ReliableGiven(log) + if e.Given? && e.m.pkt.rel then 1 else 0
  {
    assert (log + [e])[..|log|] == log;
  }

  /** What is counted: a thread, a send about to create one, a thread that has ended. */
  function Accounted(s: Sys): nat { Threads(s.host.g) + InUdp(s.host.udp) + InMenu(s.host.menu) }

  lemma {:induction false} JobAccount(log: Log, g: HostSpec.Globals, job: HostSpec.Job)
    requires JobOk(log, g, job) && job.todo != []
    ensures var r := HostSpec.JobStep(g, job);
      Threads(r.g) + BeforeSpawn(r.job) + ReliableGiven(log) ==
      Threads(g) + BeforeSpawn(job) + ReliableGiven(log + ActEvents(r.act))
  {
    hide HostMay;
    var m := Msg(Server, job.todo[0].dst, job.todo[0].pkt);
    GivenAfter(log, Given(m));
    GivenAfter(log, Sent(m));
    assert log + [] == log;
  }

  lemma {:induction false} ThreadAccount(cfg: Config, s: Sys, step: Step)
    requires Inv(cfg, s) && (step == UdpRuns || step == MenuRuns)
    ensures Accounted(Apply(s, step)) + ReliableGiven(s.log) == Accounted(s) + ReliableGiven(Apply(s, step).log)
  {
    hide Causal, MoteOk, GlobalsOk, TableOk, TableAfter, Requests, JobOk, HostSpec.JobStep, HostSpec.Replies,
         HostSpec.TopicsAfter, SlotPushes, Threads;
    var h := s.host;
    if step == UdpRuns {
      if h.udp.Working? && h.udp.job.todo != [] { JobAccount(s.log, h.g, h.udp.job); }
      else if h.udp.Dispatching? { GivenAfter(s.log, Handled(h.udp.m)); ThreadsAlike(h.g, UdpRun(s).host.g); }
      else { ThreadsAlike(h.g, UdpRun(s).host.g); }
    } else {
      if h.menu.Scanning? && h.menu.job.todo != [] { JobAccount(s.log, h.g, h.menu.job); }
    }
  }

  lemma {:induction false} ThreadsAlike(g: HostSpec.Globals, g': HostSpec.Globals)
    requires g'.sleeping == g.sleeping && g'.sending == g.sending && g'.reading == g.reading
    ensures Threads(g') == Threads(g)
  {
  }

  lemma {:induction false} OtherAccount(s: Sys, step: Step)
    requires step != UdpRuns && step != MenuRuns
    ensures var s' := Apply(s, step);
      var exit := if step == AckWakes && s.host.g.sleeping > 0 && s.host.g.ackRcv then 1 else 0;
      && Accounted(s') + exit == Accounted(s) && ReliableGiven(s'.log) == ReliableGiven(s.log)
  {
    hide CommandPacket, Completed, ReliableGiven, MoteStep, MoteSpec.Period, MoteSpec.AckTick, MoteSpec.PingTick,
         MoteSpec.RxCallback;
    if IsNodeStep(step) {
      var es := NodeStepIsSilent(s, step);
      SilentGiven(s.log, es);
    } else {
      match step
      case MenuChooses(c) => GivenAfter(s.log, MenuChose(c));
      case AckSends(k) =>
        if k < |s.host.g.reading| && Completed(s.host.g, s.host.g.reading[k]).Some? {
          GivenAfter(s.log, Sent(Completed(s.host.g, s.host.g.reading[k]).value));
        }
      case _ =>
    }
  }

  /** Conservation of ack threads: in every run the threads asleep, about to send and in the
      middle of a send, those still to be created by a send under way, and those that woke up
      to a set flag and ended, are together as many as the reliable packets passed to
      `sendPacket`. No thread ends in any other way, and none is created otherwise. */
  lemma {:induction false} ThreadConservation(cfg: Config, steps: seq<Step>)
    ensures var s := Exec(cfg, steps);
      var g := s.host.g;
      g.sleeping + g.sending + |g.reading| + InUdp(s.host.udp) + InMenu(s.host.menu) + Exits(cfg, steps) ==
      ReliableGiven(s.log)
  {
    hide Inv, Apply;
    if steps != [] {
      var before, last := steps[..|steps| - 1], steps[|steps| - 1];
      ThreadConservation(cfg, before);
      Reachable(cfg, before);
      var s := Exec(cfg, before);
      if last == UdpRuns || last == MenuRuns { ThreadAccount(cfg, s, last); } else { OtherAccount(s, last); }
    }
  }
}
