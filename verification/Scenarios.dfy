/** Pieces of runs, for any system state they can start from: what the nodes and the
    server's threads can do next, and where that leads. */
module Scenarios {
  import opened Packets
  import opened Numerals
  import opened Topics
  import opened Network
  import opened Causality
  import opened Uninterrupted
  import HostSpec
  import MoteSpec

  /** The log grew, and of the packets handled since, all are among these. */
  ghost predicate NewlyHandled(log: Log, log': Log, ms: set<Msg>) {
    && (forall e :: e in log ==> e in log')
    && (forall m: Msg :: Handled(m) in log' ==> Handled(m) in log || m in ms)
  }

  lemma {:induction false} HandledInTurn(log: Log, log1: Log, log2: Log, ms: set<Msg>, ms': set<Msg>)
    requires NewlyHandled(log, log1, ms) && NewlyHandled(log1, log2, ms')
    ensures NewlyHandled(log, log2, ms + ms')
  {
  }

  lemma {:induction false} NoPublication(log: Log, es: Log, id: nat)
    requires forall k :: 0 <= k < |es| ==> !es[k].GasPublished?
    ensures Publishes(log + es, id) == Publishes(log, id)
  {
    if es == [] {
      assert log + es == log;
    } else {
      assert (log + es)[..|log + es| - 1] == log + es[..|es| - 1];
      NoPublication(log, es[..|es| - 1], id);
    }
  }

  // ---------- The server

  lemma {:induction false} OutgoingIsQuiet(log: Log, m: Msg, sends: seq<Send>)
    ensures var log' := log + [Handled(m)] + Outgoing(sends);
      && NewlyHandled(log, log', {m})
      && Handled(m) in log'
      && (forall id :: Publishes(log', id) == Publishes(log, id))
      && (forall send :: send in sends ==>
            Given(Msg(Server, send.dst, send.pkt)) in log' && Sent(Msg(Server, send.dst, send.pkt)) in log')
  {
    hide Publishes, Outgoing;
    var es := [Handled(m)] + Outgoing(sends);
    var log' := log + [Handled(m)] + Outgoing(sends);
    assert log' == log + es;
    assert es[0] == Handled(m);
    OutgoingIsOutgoing(sends);
    forall send | send in sends
      ensures Given(Msg(Server, send.dst, send.pkt)) in log' && Sent(Msg(Server, send.dst, send.pkt)) in log'
    {
      var k :| 0 <= k < |sends| && sends[k] == send;
      OutgoingSends(sends, k);
    }
    forall id ensures Publishes(log', id) == Publishes(log, id) {
      assert forall k :: 0 < k < |es| ==> es[k] in Outgoing(sends);
      NoPublication(log, es, id);
    }
  }

  /** The idle UDP thread receives a packet and handles it to the end. */
  lemma {:induction false} ServerHandles(start: Sys, s: Sys, m: Msg) returns (s': Sys)
    requires Leads(start, s) && s.host.udp.Waiting? && Sent(m) in s.log && m.dst == Server
    ensures Leads(start, s') && s'.motes == s.motes
    ensures var h := s.host;
      var replies := HostSpec.Replies(h.topics, m.pkt, m.src);
      && s'.host == HostSpec.Host(HostSpec.AfterSends(HostSpec.TakeAck(h.g, m.pkt), replies),
                                  HostSpec.TopicsAfter(h.topics, m.pkt, m.src), HostSpec.Waiting, h.menu)
      && s'.log == s.log + [Handled(m)] + Outgoing(replies)
      && (forall send :: send in replies ==>
            Given(Msg(Server, send.dst, send.pkt)) in s'.log && Sent(Msg(Server, send.dst, send.pkt)) in s'.log)
    ensures NewlyHandled(s.log, s'.log, {m}) && Handled(m) in s'.log
    ensures forall id :: Publishes(s'.log, id) == Publishes(s.log, id)
  {
    hide HostSpec.Replies, HostSpec.TopicsAfter, HostSpec.AfterSends, HostSpec.TakeAck, Repeat, Outgoing, Publishes;
    var s1 := Follow(start, s, UdpReceives(m));
    var k := UdpHandlesMessage(s1, m);
    s' := FollowOn(start, s1, UdpRuns, k);
    OutgoingIsQuiet(s.log, m, HostSpec.Replies(s.host.topics, m.pkt, m.src));
  }

  /** It receives a packet and comes to its first answer. */
  lemma {:induction false} ServerDispatches(start: Sys, s: Sys, m: Msg) returns (s': Sys)
    requires Leads(start, s) && s.host.udp.Waiting? && Sent(m) in s.log && m.dst == Server
    ensures Leads(start, s') && s'.motes == s.motes && s'.log == s.log + [Handled(m)]
    ensures var h := s.host;
      s'.host == HostSpec.Host(
        HostSpec.TakeAck(h.g, m.pkt), HostSpec.TopicsAfter(h.topics, m.pkt, m.src),
        HostSpec.Working(HostSpec.Job(HostSpec.Replies(h.topics, m.pkt, m.src), HostSpec.Enter)), h.menu)
  {
    hide HostSpec.Replies, HostSpec.TopicsAfter, HostSpec.TakeAck, Repeat;
    var s1 := Follow(start, s, UdpReceives(m));
    var k := UdpDispatches(s1, m);
    s' := FollowOn(start, s1, UdpRuns, k);
  }

  /** An answer that is not reliable leaves the globals alone. */
  lemma {:induction false} AfterOneAnswer(g: HostSpec.Globals, reply: Send)
    requires !reply.pkt.rel
    ensures HostSpec.AfterSends(g, [reply]) == g
  {
    assert [reply][1..] == [];
  }

  /** The packet the UDP thread has received and not yet handled. */
  predicate Holds(udp: HostSpec.Udp, m: Msg) {
    !udp.Waiting? && !udp.Working? && udp.m == m
  }

  function Held(udp: HostSpec.Udp): set<Msg> {
    if udp.Waiting? || udp.Working? then {} else {udp.m}
  }

  lemma {:induction false} OneUdpStatement(s: Sys)
    ensures var s' := UdpRun(s);
      && s'.motes == s.motes && s'.host.menu == s.host.menu
      && NewlyHandled(s.log, s'.log, if s.host.udp.Dispatching? then {s.host.udp.m} else {})
      && forall id :: Publishes(s'.log, id) == Publishes(s.log, id)
  {
    hide Publishes, HostSpec.Replies, HostSpec.TopicsAfter, HostSpec.JobStep;
    var s' := UdpRun(s);
    assert s.log + [] == s.log;
    var es := if s.host.udp.Dispatching? then [Handled(s.host.udp.m)]
              else if s.host.udp.Working? && s.host.udp.job.todo != []
              then ActEvents(HostSpec.JobStep(s.host.g, s.host.udp.job).act) else [];
    assert s'.log == s.log + es;
    forall id ensures Publishes(s'.log, id) == Publishes(s.log, id) { NoPublication(s.log, es, id); }
  }

  /** Whatever the UDP thread is doing, it can come back to `recvfrom`, handling at most the
      packet it holds. */
  lemma {:induction false} UdpFinishes(start: Sys, s: Sys) returns (s': Sys)
    requires Leads(start, s)
    ensures Leads(start, s') && s'.motes == s.motes && s'.host.udp.Waiting?
    ensures NewlyHandled(s.log, s'.log, Held(s.host.udp))
    ensures forall id :: Publishes(s'.log, id) == Publishes(s.log, id)
    decreases UdpStage(s.host.udp),
              if s.host.udp.Working? then |s.host.udp.job.todo| else 0,
              if s.host.udp.Working? then HostSpec.Rank(s.host.udp.job.pc) else 0
  {
    hide Publishes, HostSpec.Replies, HostSpec.TopicsAfter, Leads, NewlyHandled;
    if s.host.udp.Waiting? {
      s' := s;
      assert NewlyHandled(s.log, s.log, {}) by { NothingHandled(s.log); }
    } else {
      var s1 := Follow(start, s, UdpRuns);
      OneUdpStatement(s);
      s' := UdpFinishes(start, s1);
      var now := if s.host.udp.Dispatching? then {s.host.udp.m} else {};
      HandledInTurn(s.log, s1.log, s'.log, now, Held(s1.host.udp));
      assert now + Held(s1.host.udp) == Held(s.host.udp);
    }
  }

  lemma {:induction false} NothingHandled(log: Log)
    ensures NewlyHandled(log, log, {})
  {
  }

  function UdpStage(udp: HostSpec.Udp): nat {
    match udp
    case Waiting => 0
    case Working(_) => 1
    case Dispatching(_) => 2
    case Marking(_) => 3
    case Comparing(_) => 4
    case Testing(_) => 5
  }

  // ---------- The nodes

  /** A node that is not connected says HELLO and, unless it is a gas sensor, asks for its
      topic; the server registers it. */
  lemma {:induction false} NodeSubscribes(start: Sys, s: Sys, id: nat) returns (s': Sys)
    requires Leads(start, s) && s.host.udp.Waiting? && id < |s.motes|
    requires !s.motes[id].connected && s.motes[id].kind != MoteSpec.Gas
    ensures Leads(start, s') && |s'.motes| == |s.motes|
    ensures forall k :: 0 <= k < |s.motes| && k != id ==> s'.motes[k] == s.motes[k]
    ensures s'.motes[id].kind == s.motes[id].kind && !s'.motes[id].connected
    ensures var topic := MoteSpec.TopicOf(s.motes[id].kind);
      && s'.host == HostSpec.Host(HostSpec.TakeAck(s.host.g, Subscribe(topic)),
                                  Register(s.host.topics, topic, Mote(id)), HostSpec.Waiting, s.host.menu)
      && SubscribedTo(s'.log, topic, Mote(id))
      && NewlyHandled(s.log, s'.log, {Msg(Mote(id), Server, Subscribe(topic))})
    ensures Sent(Msg(Mote(id), Server, HelloInit())) in s'.log
  {
    hide Register, MoteSpec.TopicOf, MoteSpec.AfterSends, HostSpec.TakeAck, Leads, Publishes;
    var topic := MoteSpec.TopicOf(s.motes[id].kind);
    var m := Msg(Mote(id), Server, Subscribe(topic));
    var r := Follow(start, s, MotePeriod(id));
    var out := SentBy(Mote(id), MoteSpec.PeriodSends(s.motes[id]));
    assert out[0] == Sent(Msg(Mote(id), Server, HelloInit())) && out[1] == Sent(m);
    assert NewlyHandled(s.log, r.log, {});
    assert HostSpec.Replies(r.host.topics, m.pkt, m.src) == [Send(SubAck(), Mote(id))];
    s' := ServerHandles(start, r, m);
    AfterOneAnswer(HostSpec.TakeAck(r.host.g, m.pkt), Send(SubAck(), Mote(id)));
  }

  lemma {:induction false} HelloTypes()
    ensures HelloInit().mst == HELLO && HelloInit().option == "init" && !HelloResponse().rel
    ensures HelloResponse().mst == HELLO && HelloResponse().option != "init"
    ensures Connect().mst == CONNECT && Connect().rel && ConnAck().mst == CONNACK && !ConnAck().rel
  {
    assert "response"[0] != "init"[0];
  }

  /** Nothing but this node changes. */
  ghost predicate OnlyNode(s: Sys, s': Sys, id: nat) {
    && |s'.motes| == |s.motes|
    && forall k :: 0 <= k < |s.motes| && k != id ==> s'.motes[k] == s.motes[k]
  }

  /** The packets of the handshake. */
  function Handshake(id: nat): set<Msg> {
    {Msg(Mote(id), Server, HelloInit()), Msg(Server, Mote(id), HelloResponse()),
     Msg(Mote(id), Server, Connect()), Msg(Server, Mote(id), ConnAck())}
  }

  /** The node's program and its counter stay as they are. */
  predicate SameProgram(st: MoteSpec.State, st': MoteSpec.State) {
    st'.kind == st.kind && st'.gasValue == st.gasValue
  }

  /** A node that is not connected goes through the handshake. The CONNECT takes the place of
      whatever was in its slot. */
  lemma {:induction false} NodeJoins(start: Sys, s: Sys, id: nat) returns (s': Sys)
    requires Leads(start, s) && s.host.udp.Waiting? && id < |s.motes| && !s.motes[id].connected
    ensures Leads(start, s') && OnlyNode(s, s', id) && SameProgram(s.motes[id], s'.motes[id])
    ensures s'.motes[id].connected && s'.motes[id].ack.slot == Some(Send(Connect(), Server))
    ensures s'.host == s.host.(g := s.host.g.(ackRcv := s'.host.g.ackRcv))
    ensures NewlyHandled(s.log, s'.log, Handshake(id))
  {
    hide MoteSpec.AfterSends, MoteSpec.TakeAck, MoteSpec.WasherCheck, HelloInit, HelloResponse, Connect, ConnAck,
         Leads, Outgoing, HostSpec.AfterSends, Publishes, Subscribe, MoteSpec.TopicOf;
    HelloTypes();
    var s1 := Follow(start, s, MotePeriod(id));
    assert SentBy(Mote(id), MoteSpec.PeriodSends(s.motes[id]))[0] == Sent(Msg(Mote(id), Server, HelloInit()));
    var s2 := ServerHandles(start, s1, Msg(Mote(id), Server, HelloInit()));
    assert HostSpec.Replies(s1.host.topics, HelloInit(), Mote(id)) == [Send(HelloResponse(), Mote(id))];
    AfterOneAnswer(HostSpec.TakeAck(s1.host.g, HelloInit()), Send(HelloResponse(), Mote(id)));
    var s3 := NodeAnswersHello(start, s2, id);
    var s4 := ServerHandles(start, s3, Msg(Mote(id), Server, Connect()));
    assert HostSpec.Replies(s3.host.topics, Connect(), Mote(id)) == [Send(ConnAck(), Mote(id))];
    AfterOneAnswer(HostSpec.TakeAck(s3.host.g, Connect()), Send(ConnAck(), Mote(id)));
    s' := NodeConnects(start, s4, id);
  }

  lemma {:induction false} NodeAnswersHello(start: Sys, s: Sys, id: nat) returns (s': Sys)
    requires Leads(start, s) && id < |s.motes| && Sent(Msg(Server, Mote(id), HelloResponse())) in s.log
    ensures Leads(start, s') && OnlyNode(s, s', id) && s'.host == s.host
    ensures SameProgram(s.motes[id], s'.motes[id]) && s'.motes[id].ack.slot == Some(Send(Connect(), Server))
    ensures Sent(Msg(Mote(id), Server, Connect())) in s'.log
    ensures NewlyHandled(s.log, s'.log, {Msg(Server, Mote(id), HelloResponse())})
  {
    hide MoteSpec.AfterSends, MoteSpec.TakeAck, HelloResponse, Connect, Leads, CallbackEvents;
    HelloTypes();
    var st, m := s.motes[id], Msg(Server, Mote(id), HelloResponse());
    s' := Follow(start, s, MoteReceives(m));
    var out := MoteSpec.Replies(st.topics, HelloResponse(), Server);
    assert out == [Send(Connect(), Server)];
    assert SentBy(Mote(id), out)[0] == Sent(Msg(Mote(id), Server, Connect()));
    MoteSpec.AfterSendsSlot(MoteSpec.TakeAck(st.ack, HelloResponse()), out);
    CallbackHandlesNothing(s'.motes[id], id);
  }

  lemma {:induction false} NodeConnects(start: Sys, s: Sys, id: nat) returns (s': Sys)
    requires Leads(start, s) && id < |s.motes| && Sent(Msg(Server, Mote(id), ConnAck())) in s.log
    ensures Leads(start, s') && OnlyNode(s, s', id) && s'.host == s.host
    ensures SameProgram(s.motes[id], s'.motes[id]) && s'.motes[id].connected
    ensures s'.motes[id].ack.slot == s.motes[id].ack.slot
    ensures NewlyHandled(s.log, s'.log, {Msg(Server, Mote(id), ConnAck())})
  {
    hide MoteSpec.TakeAck, MoteSpec.Replies, ConnAck, Leads, CallbackEvents;
    HelloTypes();
    var st, m := s.motes[id], Msg(Server, Mote(id), ConnAck());
    s' := Follow(start, s, MoteReceives(m));
    ConnAckIsUnanswered(st.topics, st.ack);
    MoteSpec.RxOut(st, ConnAck(), Server);
    CallbackHandlesNothing(s'.motes[id], id);
  }

  lemma {:induction false} ConnAckIsUnanswered(t: Table, a: MoteSpec.Ack)
    ensures MoteSpec.Replies(t, ConnAck(), Server) == [] && MoteSpec.TakeAck(a, ConnAck()).slot == a.slot
  {
  }

  lemma {:induction false} CallbackHandlesNothing(st: MoteSpec.State, id: nat)
    ensures forall k :: 0 <= k < |CallbackEvents(st, id)| ==> !CallbackEvents(st, id)[k].Handled?
  {
  }

  /** The packet with the next value of a gas sensor. */
  function NextValue(st: MoteSpec.State): Packet {
    Publish("GAS", Dec(MoteSpec.NextGas(st.gasValue)))
  }

  /** A connected gas sensor publishes its next value. */
  lemma {:induction false} GasPublishes(start: Sys, s: Sys, id: nat) returns (s': Sys)
    requires Leads(start, s) && id < |s.motes| && s.motes[id].connected && s.motes[id].kind == MoteSpec.Gas
    ensures Leads(start, s') && OnlyNode(s, s', id) && s'.host == s.host && s' == Apply(s, MotePeriod(id))
    ensures
      var p, st := NextValue(s.motes[id]), s'.motes[id];
      && Sent(Msg(Mote(id), Server, p)) in s'.log
      && st.connected && st.kind == MoteSpec.Gas && st.gasValue == MoteSpec.NextGas(s.motes[id].gasValue)
      && st.ack == MoteSpec.Ack(false, PUBACK, Some(Send(p, Server)), true)
    ensures NewlyHandled(s.log, s'.log, {}) && Publishes(s'.log, id) == Publishes(s.log, id) + 1
  {
    hide Dec, MoteSpec.AfterSends, Leads, MoteSpec.NextGas;
    s' := Follow(start, s, MotePeriod(id));
    var p := NextValue(s.motes[id]);
    var out := MoteSpec.PeriodSends(s.motes[id]);
    assert out == [Send(p, Server)];
    MoteSpec.AfterSendsSlot(s.motes[id].ack, out);
    assert SentBy(Mote(id), out) == [Sent(Msg(Mote(id), Server, p))];
    var e := GasPublished(id, MoteSpec.NextGas(s.motes[id].gasValue));
    assert s'.log == s.log + [e] + [Sent(Msg(Mote(id), Server, p))];
    assert (s.log + [e])[..|s.log|] == s.log;
    NoPublication(s.log + [e], [Sent(Msg(Mote(id), Server, p))], id);
  }

  /** It publishes k times; none of these packets need ever arrive. */
  lemma {:induction false} GasPublishesOften(start: Sys, s: Sys, id: nat, k: nat) returns (s': Sys)
    requires Leads(start, s) && id < |s.motes| && s.motes[id].connected && s.motes[id].kind == MoteSpec.Gas
    ensures Leads(start, s') && OnlyNode(s, s', id) && s'.host == s.host
    ensures s'.motes[id].connected && s'.motes[id].kind == MoteSpec.Gas
    ensures NewlyHandled(s.log, s'.log, {}) && Publishes(s'.log, id) == Publishes(s.log, id) + k
    decreases k
  {
    hide Leads, Publishes, NextValue, MoteSpec.NextGas;
    s' := s;
    if k > 0 {
      s' := GasPublishesOften(start, s, id, k - 1);
      s' := GasPublishes(start, s', id);
    }
  }

  /** A node takes a PUBACK for the acknowledgement of its last packet. */
  lemma {:induction false} NodeTakesAck(start: Sys, s: Sys, id: nat) returns (s': Sys)
    requires Leads(start, s) && id < |s.motes|
    requires Sent(Msg(Server, Mote(id), PubAck())) in s.log && s.motes[id].ack.wanted == PUBACK
    ensures Leads(start, s') && |s'.motes| == |s.motes|
    ensures s'.motes[id].ack == s.motes[id].ack.(rcv := true)
    ensures NewlyHandled(s.log, s'.log, {Msg(Server, Mote(id), PubAck())})
    ensures Publishes(s'.log, id) == Publishes(s.log, id)
  {
    hide Leads, Publishes, PubAck;
    var m := Msg(Server, Mote(id), PubAck());
    AckIsUnanswered(s.motes[id].topics);
    s' := Follow(start, s, MoteReceives(m));
    var r := MoteSpec.RxCallback(s.motes[id], PubAck(), Server);
    var es := [Handled(m)] + CallbackEvents(r.state, id);
    assert SentBy(Mote(id), r.out) == [];
    assert s'.log == s.log + es;
    NoPublication(s.log, es, id);
  }

  lemma {:induction false} AckIsUnanswered(t: Table)
    ensures PubAck().mst == PUBACK && MoteSpec.Replies(t, PubAck(), Server) == []
  {
  }

  // ---------- The menu and the slot

  lemma {:induction false} LightCommand()
    ensures CommandPacket(LightOn).option == "Light" && CommandPacket(LightOn).rel
    ensures Push(CommandPacket(LightOn)).mst == PUSH && Push(CommandPacket(LightOn)).rel
  {
  }

  /** The operator switches the light on and the menu thread finds the light in slot 0. */
  lemma {:induction false} MenuStarts(start: Sys, s: Sys, a: Addr, push: Send) returns (s': Sys)
    requires Leads(start, s) && s.host.menu.Prompt? && s.host.topics != []
    requires s.host.topics[0] == Some(NewTopic("Light", a)) && push == Send(Push(CommandPacket(LightOn)), a)
    ensures Leads(start, s') && s'.motes == s.motes
    ensures s'.host == s.host.(menu :=
              HostSpec.Scanning(CommandPacket(LightOn), 1, HostSpec.Job([push], HostSpec.Enter)))
    ensures s'.log == s.log + [MenuChose(LightOn)]
  {
    hide CommandPacket, Push, Leads;
    LightCommand();
    var r := Follow(start, s, MenuChooses(LightOn));
    EntryPushesOfPair([Some(a), None], CommandPacket(LightOn));
    assert SlotPushes(s.host.topics[0], CommandPacket(LightOn)) == [push];
    s' := Follow(start, r, MenuRuns);
  }

  /** The menu thread writes the slot, statement by statement, and starts an ack thread. */
  lemma {:induction false} MenuFillsSlot(start: Sys, s: Sys, p: Packet, push: Send) returns (s': Sys)
    requires Leads(start, s) && push.pkt.rel && push.pkt.mst == PUSH
    requires s.host.menu == HostSpec.Scanning(p, 1, HostSpec.Job([push], HostSpec.Enter))
    ensures Leads(start, s') && s'.motes == s.motes && s'.host.topics == s.host.topics && s'.host.udp == s.host.udp
    ensures s'.log == s.log + [Given(Msg(Server, push.dst, push.pkt))]
    ensures s'.host.g == HostSpec.SendPacket(s.host.g, push)
  {
    hide Leads;
    s' := Follow(start, s, MenuRuns);
    s' := Follow(start, s', MenuRuns);
    s' := Follow(start, s', MenuRuns);
    assert s'.host == HostSpec.Host(
      s.host.g.(ackRcv := false, ackTypeWanted := PUSHACK, packetAck := Some(push.pkt)), s.host.topics, s.host.udp,
      HostSpec.Scanning(p, 1, HostSpec.Job([push], HostSpec.FillDest)));
    s' := Follow(start, s', MenuRuns);
    s' := Follow(start, s', MenuRuns);
  }

  lemma {:induction false} MenuPushes(start: Sys, s: Sys, a: Addr) returns (s': Sys)
    requires Leads(start, s) && s.host.menu.Prompt? && s.host.topics != []
    requires s.host.topics[0] == Some(NewTopic("Light", a))
    ensures Leads(start, s') && s'.motes == s.motes && s'.host.topics == s.host.topics && s'.host.udp == s.host.udp
    ensures Given(Msg(Server, a, Push(CommandPacket(LightOn)))) in s'.log
    ensures NewlyHandled(s.log, s'.log, {})
    ensures s'.host.g == HostSpec.SendPacket(s.host.g, Send(Push(CommandPacket(LightOn)), a))
  {
    hide CommandPacket, Push, Leads;
    var push := Send(Push(CommandPacket(LightOn)), a);
    LightCommand();
    var r := MenuStarts(start, s, a, push);
    s' := MenuFillsSlot(start, r, CommandPacket(LightOn), push);
    assert s'.log[|r.log|] == Given(Msg(Server, a, push.pkt));
  }

  /** The first answer, if it is not reliable, goes out; the next comes next. */
  lemma {:induction false} FirstAnswerSent(start: Sys, s: Sys, ack: Send, rest: seq<Send>) returns (s': Sys)
    requires Leads(start, s) && !ack.pkt.rel
    requires s.host.udp == HostSpec.Working(HostSpec.Job([ack] + rest, HostSpec.Enter))
    ensures Leads(start, s') && s'.motes == s.motes
    ensures s'.host == s.host.(udp := HostSpec.Working(HostSpec.Job(rest, HostSpec.Enter)))
    ensures var m := Msg(Server, ack.dst, ack.pkt); s'.log == s.log + [Given(m), Sent(m)]
  {
    hide Leads;
    var m := Msg(Server, ack.dst, ack.pkt);
    s' := Follow(start, s, UdpRuns);
    s' := Follow(start, s', UdpRuns);
    assert ([ack] + rest)[1..] == rest;
    assert s.log + [Given(m)] + [Sent(m)] == s.log + [Given(m), Sent(m)];
  }

  /** The ack thread wakes when the packet of the push has been written to the slot and its
      destination has not. */
  lemma {:induction false} WakeInBetween(start: Sys, s: Sys, push: Send, light: Addr) returns (s': Sys)
    requires Leads(start, s) && s.host.udp == HostSpec.Working(HostSpec.Job([push], HostSpec.Enter))
    requires push.pkt.rel && push.pkt.mst == PUSH
    requires s.host.g.sleeping == 1 && s.host.g.sending == 0 && s.host.g.reading == []
    requires s.host.g.destAddrAck == Some(light)
    ensures Leads(start, s') && Sent(Msg(Server, light, push.pkt)) in s'.log
  {
    hide Leads;
    s' := Follow(start, s, UdpRuns);
    s' := Follow(start, s', UdpRuns);
    s' := Follow(start, s', UdpRuns);
    assert s'.host.g == HostSpec.Globals(false, PUSHACK, Some(push.pkt), Some(light), 1, 0, []);
    s' := Follow(start, s', AckWakes);
    s' := Follow(start, s', AckReadsPacket);
    assert s'.host.g == HostSpec.Globals(false, PUSHACK, Some(push.pkt), Some(light), 0, 0,
                                         [HostSpec.HasPacket(push.pkt)]);
    s' := Follow(start, s', AckSends(0));
    assert s'.log[|s'.log| - 1] == Sent(Msg(Server, light, push.pkt));
  }

  // ---------- Tables

  lemma {:induction false} FirstSlot(n: nat, name: string, from: Addr)
    requires n >= 1
    ensures var t := Register(EmptyTable(n), name, from);
      |t| == n && t[0] == Some(NewTopic(name, from)) && Find(t, name) == 0
    ensures WellFormed(Register(EmptyTable(n), name, from))
  {
    assert FirstFree(EmptyTable(n)) == 0;
    var t := Register(EmptyTable(n), name, from);
    assert IsAt(t, 0, name);
    RegisterKeepsWellFormed(EmptyTable(n), name, from);
  }

  lemma {:induction false} ServesFirst(t: Table, p: Packet, a: Addr)
    requires WellFormed(t) && t != [] && t[0] == Some(NewTopic(p.option, a))
    ensures Pushes(PublishSlots(t), p) == [Send(Push(p), a)]
  {
    assert IsAt(t, 0, p.option);
    ScanReaches(t, PublishSlots(t), p);
  }

  /** Two topics in the table, the gas topic in the second slot. */
  lemma {:induction false} TwoTopics(n: nat, light: Addr, alarm: Addr, q: Packet)
    requires n >= 2 && q.option == "GAS"
    ensures
      var t := Register(Register(EmptyTable(n), "Light", light), "GAS", alarm);
      && t != [] && t[0] == Some(NewTopic("Light", light))
      && Pushes(PublishSlots(t), q) == [Send(Push(q), alarm)]
  {
    var t1 := Register(EmptyTable(n), "Light", light);
    assert FirstFree(EmptyTable(n)) == 0;
    assert t1[0] == Some(NewTopic("Light", light));
    assert "Light"[0] != "GAS"[0];
    assert FirstFree(t1) == 1 && Find(t1, "GAS") == n;
    var t := Register(t1, "GAS", alarm);
    assert t[0] == Some(NewTopic("Light", light)) && t[1] == Some(NewTopic("GAS", alarm));
    var scanned := PublishSlots(t);
    assert |scanned| == 2 && scanned[0] == t[0] && scanned[1] == t[1];
    assert Find(scanned, "GAS") == 1;
    PushesOfMatch(scanned, q);
    EntryPushesOfPair(t[1].value.ips, q);
  }
}
