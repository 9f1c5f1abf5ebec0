/** What reaches whom, and what the acknowledgements and the shared retransmission slot are
    worth, in every run. */
module Delivery {
  import opened Packets
  import opened Numerals
  import opened Topics
  import opened Network
  import opened Causality
  import opened Invariant
  import opened HostSteps
  import opened Guarantees
  import MoteSpec
  import HostSpec

  // ---------- The table, against the history of handled SUBSCRIBE packets

  /** In every reachable state the table is the one that history determines. */
  lemma {:induction false} TableIsHistory(cfg: Config, steps: seq<Step>)
    ensures var s := Exec(cfg, steps);
      && s.host.topics == TableAfter(Requests(s.log), cfg.serverTopics)
      && Refines(s.host.topics, Requests(s.log))
  {
    hide Exec, Causal, MoteOk, GlobalsOk, UdpOk, MenuOk, TableOk;
    Reachable(cfg, steps);
    TableRefinesHistory(Requests(Exec(cfg, steps).log), cfg.serverTopics);
  }

  lemma {:induction false} RequestRecorded(log: Log, m: Msg)
    requires Handled(m) in log && m.dst == Server && m.pkt.mst == SUBSCRIBE
    ensures exists k :: 0 <= k < |Requests(log)| && Requests(log)[k].name == m.pkt.option
  {
    var before, last := log[..|log| - 1], log[|log| - 1];
    assert log == before + [last];
    if last == Handled(m) {
      assert Requests(log)[|Requests(log)| - 1].name == m.pkt.option;
    } else {
      RequestRecorded(before, m);
      var k :| 0 <= k < |Requests(before)| && Requests(before)[k].name == m.pkt.option;
      assert Requests(log)[k] == Requests(before)[k];
    }
  }

  lemma {:induction false} RequestedIsKept(t: Table, reqs: seq<Request>, name: string)
    requires Refines(t, reqs) && exists k :: 0 <= k < |reqs| && reqs[k].name == name
    ensures Find(t, name) < |t| || FirstFree(t) == |t|
  {
    assert SlotIsHistory(t, reqs, name);
    RankIsSmall(reqs, name);
  }

  // ---------- Acknowledgements

  lemma {:induction false} PublishesGrow(log: Log, a: nat, b: nat, id: nat)
    requires a <= b <= |log|
    ensures Publishes(log[..a], id) <= Publishes(log[..b], id)
  {
    assert log[..b] == log[..a] + log[a..b];
    PublishesConcat(log[..a], log[a..b], id);
  }

  lemma {:induction false} TwoPublications(log: Log, i: nat, j: nat, id: nat)
    requires i < j < |log| && log[i].GasPublished? && log[i].id == id && log[j].GasPublished? && log[j].id == id
    ensures Publishes(log, id) >= 2
  {
    hide Publishes;
    OneMore(log, i, id);
    OneMore(log, j, id);
    PublishesGrow(log, i + 1, j, id);
    PublishesGrow(log, j + 1, |log|, id);
    assert log[..|log|] == log;
  }

  /** A sensor that published once sent one value. */
  lemma {:induction false} OnlyPublication(log: Log, id: nat, p: Packet, q: Packet)
    requires Publishes(log, id) == 1 && GasValueSent(log, id, p) && GasValueSent(log, id, q)
    ensures p == q
  {
    hide Publishes, Publish, Dec;
    var v: nat :| GasPublished(id, v) in log && p == Publish("GAS", Dec(v));
    var w: nat :| GasPublished(id, w) in log && q == Publish("GAS", Dec(w));
    var i :| 0 <= i < |log| && log[i] == GasPublished(id, v);
    var j :| 0 <= j < |log| && log[j] == GasPublished(id, w);
    if i < j { TwoPublications(log, i, j, id); }
    if j < i { TwoPublications(log, j, i, id); }
  }

  /** The packet a node sent behind one of this type that the server handled. */
  lemma {:induction false} HandledShape(cfg: Config, log: Log, id: nat, mst: nat) returns (q: Packet)
    requires Causal(cfg, log) && HandledType(log, Mote(id), mst)
    ensures q.mst == mst && Handled(Msg(Mote(id), Server, q)) in log
    ensures id < |cfg.kinds| && MoteMay(cfg, log, id, q)
  {
    hide Causal, MoteMay;
    q :| q.mst == mst && Handled(Msg(Mote(id), Server, q)) in log;
    CauseOf(cfg, log, Handled(Msg(Mote(id), Server, q)));
    CauseOf(cfg, log, Sent(Msg(Mote(id), Server, q)));
  }

  /** When a node's reliable packet counts as acknowledged, the server has handled a packet
      of that type from that node; if it is a CONNECT, a SUBSCRIBE or the sensor's first
      value, that very packet; after a SUBSCRIBE the node's topic is in the table or the
      table is full. That no later value has this is `Limits.AckedValueIsHandledExactly`. */
  lemma {:induction false} AckSoundness(cfg: Config, steps: seq<Step>, id: nat)
    requires id < |cfg.kinds| && id < |Exec(cfg, steps).motes|
    requires var a := Exec(cfg, steps).motes[id].ack; a.slot.Some? && a.rcv
    ensures var s := Exec(cfg, steps);
      var p := s.motes[id].ack.slot.value.pkt;
      && s.motes[id].ack.wanted == p.mst + 1
      && HandledType(s.log, Mote(id), p.mst)
      && p.mst in {CONNECT, SUBSCRIBE, PUBLISH}
      && (p.mst != PUBLISH || Publishes(s.log, id) == 1 ==> Handled(Msg(Mote(id), Server, p)) in s.log)
      && (p.mst == SUBSCRIBE ==>
            && p == Subscribe(MoteSpec.TopicOf(cfg.kinds[id]))
            && (Find(s.host.topics, p.option) < |s.host.topics| || FirstFree(s.host.topics) == |s.host.topics|))
  {
    hide Exec, Causal, HostOk, MoteMay, Subscribe, Refines, Publishes, HandledType;
    Reachable(cfg, steps);
    var s := Exec(cfg, steps);
    assert MoteOk(cfg, s.log, id, s.motes[id]);
    var p := s.motes[id].ack.slot.value.pkt;
    MoteTypeShapes(cfg, s.log, id, p);
    MoteSteps.ReliableTypes(cfg, s.log, id, p);
    var q := HandledShape(cfg, s.log, id, p.mst);
    MoteTypeShapes(cfg, s.log, id, q);
    if p.mst == PUBLISH && Publishes(s.log, id) == 1 { OnlyPublication(s.log, id, p, q); }
    if p.mst == SUBSCRIBE {
      RequestRecorded(s.log, Msg(Mote(id), Server, p));
      TableIsHistory(cfg, steps);
      RequestedIsKept(s.host.topics, Requests(s.log), p.option);
    }
  }

  // ---------- What a gas sensor published it also sent

  ghost predicate ValueSent(log: Log, id: nat, st: MoteSpec.State) {
    st.gasValue > 0 ==> Sent(Msg(Mote(id), Server, Publish("GAS", Dec(st.gasValue)))) in log
  }

  ghost predicate ValuesSent(s: Sys) {
    forall id :: 0 <= id < |s.motes| ==> ValueSent(s.log, id, s.motes[id])
  }

  lemma {:induction false} MoteStepValues(s: Sys, id: nat, before: Log, r: MoteSpec.Result, after: Log)
    requires id < |s.motes| && ValuesSent(s)
    requires r.state.gasValue == s.motes[id].gasValue ||
      r.out == [Send(Publish("GAS", Dec(r.state.gasValue)), Server)]
    ensures ValuesSent(MoteStep(s, id, before, r, after))
  {
    hide Dec, Publish;
    var s' := MoteStep(s, id, before, r, after);
    assert Extends(s.log, s'.log);
    if r.state.gasValue != s.motes[id].gasValue {
      assert SentBy(Mote(id), r.out)[0] == Sent(Msg(Mote(id), Server, Publish("GAS", Dec(r.state.gasValue))));
    }
    forall other | 0 <= other < |s'.motes| ensures ValueSent(s'.log, other, s'.motes[other]) {
      assert ValueSent(s.log, other, s.motes[other]);
    }
  }

  lemma {:induction false} RxKeepsGas(st: MoteSpec.State, p: Packet, src: Addr)
    ensures MoteSpec.RxCallback(st, p, src).state.gasValue == st.gasValue
  {
  }

  lemma {:induction false} ApplyValues(s: Sys, step: Step)
    requires ValuesSent(s)
    ensures ValuesSent(Apply(s, step))
  {
    hide MoteStep, MoteSpec.RxCallback, ValuesSent, Dec, Publish;
    match step
    case MotePeriod(id) =>
      if id < |s.motes| { MoteStepValues(s, id, PeriodEvents(s.motes[id], id), MoteSpec.Period(s.motes[id]), []); }
    case MoteAckTimer(id) =>
      if id < |s.motes| { MoteStepValues(s, id, [], MoteSpec.AckTick(s.motes[id]), []); }
    case MotePingTimer(id) =>
      if id < |s.motes| { MoteStepValues(s, id, [], MoteSpec.PingTick(s.motes[id]), []); }
    case MoteReceives(m) =>
      if m.dst.Mote? && m.dst.id < |s.motes| && Sent(m) in s.log {
        var r := MoteSpec.RxCallback(s.motes[m.dst.id], m.pkt, m.src);
        RxKeepsGas(s.motes[m.dst.id], m.pkt, m.src);
        MoteStepValues(s, m.dst.id, [Handled(m)], r, CallbackEvents(r.state, m.dst.id));
      }
    case _ => ServerStepValues(s, step);
  }

  lemma {:induction false} ServerStepValues(s: Sys, step: Step)
    requires ValuesSent(s) && !step.MotePeriod? && !step.MoteAckTimer? && !step.MotePingTimer? && !step.MoteReceives?
    ensures ValuesSent(Apply(s, step))
  {
    hide Dec, Publish, CommandPacket, Completed, HostSpec.JobStep, ActEvents, HostSpec.Replies, SlotPushes;
    var s' := Apply(s, step);
    assert s'.motes == s.motes && Extends(s.log, s'.log);
    forall id | 0 <= id < |s.motes| ensures ValueSent(s'.log, id, s.motes[id]) {
      assert ValueSent(s.log, id, s.motes[id]);
    }
  }

  /** The last value a gas sensor published is among the packets given to the network. */
  lemma {:induction false} LastValueIsSent(cfg: Config, steps: seq<Step>)
    ensures ValuesSent(Exec(cfg, steps))
  {
    hide Apply, ValuesSent;
    if steps == [] {
      InitValues(cfg);
    } else {
      LastValueIsSent(cfg, steps[..|steps| - 1]);
      ApplyValues(Exec(cfg, steps[..|steps| - 1]), steps[|steps| - 1]);
    }
  }

  lemma {:induction false} InitValues(cfg: Config)
    ensures ValuesSent(Init(cfg))
  {
  }

  // ---------- The shared slot of the server

  /** In every interleaving of the UDP thread, the menu thread and any number of ack
      threads: the awaited type is 0 or PUSHACK; no ack thread exists before both halves of
      the slot are filled; the packet it resends is a push that was given to `sendPacket`,
      and its destination is that of some push given to `sendPacket`. */
  lemma {:induction false} SlotSafety(cfg: Config, steps: seq<Step>)
    ensures var s := Exec(cfg, steps);
      var g := s.host.g;
      && g.ackTypeWanted in {0, PUSHACK}
      && (g.sleeping + g.sending + |g.reading| > 0 ==>
            && g.packetAck.Some? && PacketGiven(s.log, g.packetAck.value)
            && g.destAddrAck.Some? && DestGiven(s.log, g.destAddrAck.value))
      && forall k :: 0 <= k < |g.reading| ==> Completed(g, g.reading[k]).Some? && HalfOk(s.log, g.reading[k])
  {
    hide Exec, Causal, MoteOk, UdpOk, MenuOk, TableOk, PacketGiven, DestGiven;
    Reachable(cfg, steps);
  }

  // ---------- Why a push was sent

  /** Every push the server sends relays a packet published before, by a node or from the
      menu: same topic and reliability, its payload behind two more blanks. It goes to an
      address whose SUBSCRIBE was handled before; unless it is an ack thread's copy, that
      SUBSCRIBE was for the topic of the push. */
  lemma {:induction false} PushJustification(cfg: Config, steps: seq<Step>, i: nat) returns (q: Packet, topic: string)
    requires i < |Exec(cfg, steps).log| && Exec(cfg, steps).log[i].Sent?
    requires Exec(cfg, steps).log[i].m.src == Server && Exec(cfg, steps).log[i].m.pkt.mst == PUSH
    ensures var log := Exec(cfg, steps).log;
      var m := log[i].m;
      && PublishSeen(log[..i], q)
      && m.pkt == Packet(PUSH, q.rel, q.option, "  " + q.payload)
      && SubscribedTo(log[..i], topic, m.dst)
      && (Given(m) in log[..i] ==> topic == m.pkt.option)
  {
    hide Exec, Causal, MoteMay, HostMay, PushOf, SubscribedTo, PublishSeen;
    Reachable(cfg, steps);
    var log := Exec(cfg, steps).log;
    var m := log[i].m;
    CauseAt(cfg, log, i);
    var given, to := m, m;
    if Given(m) !in log[..i] {
      var d: Addr :| Given(Msg(Server, d, m.pkt)) in log[..i];
      var p: Packet :| p.mst == PUSH && Given(Msg(Server, m.dst, p)) in log[..i];
      given, to := Msg(Server, d, m.pkt), Msg(Server, m.dst, p);
    }
    CauseOf(cfg, log[..i], Given(given));
    CauseOf(cfg, log[..i], Given(to));
    PushIsPushOf(log[..i], given.pkt, given.dst);
    PushIsPushOf(log[..i], to.pkt, to.dst);
    q := PushSource(log[..i], m.pkt);
    topic := to.pkt.option;
  }

  lemma {:induction false} PushSource(log: Log, p: Packet) returns (q: Packet)
    requires PushOf(log, p)
    ensures PublishSeen(log, q) && p == Packet(PUSH, q.rel, q.option, "  " + q.payload)
  {
    hide PublishSeen;
    q :| PublishSeen(log, q) && p == Push(q);
  }

  // ---------- Capacity

  lemma {:induction false} GasValueFits(cfg: Config, log: Log, id: nat, p: Packet)
    requires Causal(cfg, log) && GasValueSent(log, id, p)
    ensures Fits(p) && |p.payload| <= 4
  {
    hide Causal, Publishes;
    var v: nat :| GasPublished(id, v) in log && p == Publish("GAS", Dec(v));
    var i :| 0 <= i < |log| && log[i] == GasPublished(id, v);
    CauseAt(cfg, log, i);
    assert 1 <= v <= 13;
    assert |Dec(v)| <= 2 by { if v >= 10 { assert |Dec(v / 10)| == 1; } }
    assert |p.payload| == 2 + |Dec(v)|;
  }

  /** Everything that holds a packet, or a text copied from one. */
  ghost predicate AllFit(s: Sys) {
    && (forall m: Msg :: Sent(m) in s.log || Given(m) in s.log || Handled(m) in s.log ==> Fits(m.pkt))
    && (forall c :: MenuChose(c) in s.log ==> Fits(CommandPacket(c)))
    && ServerFits(s.host)
    && (forall id :: 0 <= id < |s.motes| ==> MoteFits(s.motes[id]))
  }

  ghost predicate ServerFits(h: HostSpec.Host) {
    && (h.g.packetAck.Some? ==> Fits(h.g.packetAck.value))
    && (forall k :: 0 <= k < |h.g.reading| && h.g.reading[k].HasPacket? ==> Fits(h.g.reading[k].pkt))
    && (h.udp.Working? ==> SendsFit(h.udp.job.todo))
    && (!h.udp.Working? && !h.udp.Waiting? ==> Fits(h.udp.m.pkt))
    && (h.menu.Scanning? ==> Fits(h.menu.p) && SendsFit(h.menu.job.todo))
  }

  ghost predicate SendsFit(sends: seq<Send>) {
    forall k :: 0 <= k < |sends| ==> Fits(sends[k].pkt)
  }

  ghost predicate MoteFits(st: MoteSpec.State) {
    && (st.ack.slot.Some? ==> Fits(st.ack.slot.value.pkt))
    && (st.pushed.Some? ==> |st.pushed.value| <= 49)
  }

  /** No `strcpy` or `strcat` on a packet ever writes past its arrays: in every run every
      packet in the network, built for sending, waiting in a thread or kept in a slot has at
      most 19 characters of option and 49 of payload, and so has every text read from one. */
  lemma {:induction false} PacketsFitTheirArrays(cfg: Config, steps: seq<Step>)
    ensures AllFit(Exec(cfg, steps))
  {
    hide Exec, Causal, MoteOk, HostOk, Fits, ServerFits, MoteFits;
    Reachable(cfg, steps);
    var s := Exec(cfg, steps);
    forall m: Msg | Sent(m) in s.log || Given(m) in s.log || Handled(m) in s.log ensures Fits(m.pkt) {
      if Handled(m) in s.log { CauseOf(cfg, s.log, Handled(m)); }
      LoggedFits(cfg, s.log, m);
    }
    forall c | MenuChose(c) in s.log ensures Fits(CommandPacket(c)) { CommandFits(c); }
    ServerAllFits(cfg, s);
    forall id | 0 <= id < |s.motes| ensures MoteFits(s.motes[id]) {
      MoteAllFits(cfg, s.log, id, s.motes[id]);
    }
  }

  lemma {:induction false} LoggedFits(cfg: Config, log: Log, m: Msg)
    requires Causal(cfg, log) && (Sent(m) in log || Given(m) in log)
    ensures Fits(m.pkt)
  {
    hide Causal, MoteMay, HostMay, Fits;
    if Given(m) in log {
      CauseOf(cfg, log, Given(m));
      HostPacketFits(cfg, log, m.pkt, m.dst);
    } else {
      CauseOf(cfg, log, Sent(m));
      if m.src.Mote? {
        MotePacketFits(cfg, log, m.src.id, m.pkt);
      } else {
        GivenFits(cfg, log, m.pkt);
      }
    }
  }

  lemma {:induction false} GivenFits(cfg: Config, log: Log, p: Packet)
    requires Causal(cfg, log) && PacketGiven(log, p)
    ensures Fits(p)
  {
    hide Causal, HostMay, Fits;
    var d: Addr :| Given(Msg(Server, d, p)) in log;
    CauseOf(cfg, log, Given(Msg(Server, d, p)));
    HostPacketFits(cfg, log, p, d);
  }

  lemma {:induction false} ChosenFits(log: Log, p: Packet)
    requires Chosen(log, p)
    ensures Fits(p)
  {
    hide CommandPacket;
    var c :| MenuChose(c) in log && p == CommandPacket(c);
    CommandFits(c);
  }

  lemma {:induction false} JobFits(cfg: Config, log: Log, g: HostSpec.Globals, job: HostSpec.Job)
    requires Causal(cfg, log) && JobOk(log, g, job)
    ensures SendsFit(job.todo)
  {
    hide Causal, HostMay, Fits;
    forall k | 0 <= k < |job.todo| ensures Fits(job.todo[k].pkt) {
      HostPacketFits(cfg, log, job.todo[k].pkt, job.todo[k].dst);
    }
  }

  lemma {:induction false} ServerAllFits(cfg: Config, s: Sys)
    requires Inv(cfg, s)
    ensures ServerFits(s.host)
  {
    hide Causal, MoteOk, TableOk, TableAfter, Requests, JobOk, PacketGiven, DestGiven, Fits, SendsFit;
    var h := s.host;
    if h.g.packetAck.Some? { GivenFits(cfg, s.log, h.g.packetAck.value); }
    forall k | 0 <= k < |h.g.reading| && h.g.reading[k].HasPacket? ensures Fits(h.g.reading[k].pkt) {
      assert HalfOk(s.log, h.g.reading[k]);
      GivenFits(cfg, s.log, h.g.reading[k].pkt);
    }
    match h.udp {
      case Waiting =>
      case Working(job) => JobFits(cfg, s.log, h.g, job);
      case _ => LoggedFits(cfg, s.log, h.udp.m);
    }
    if h.menu.Scanning? {
      ChosenFits(s.log, h.menu.p);
      JobFits(cfg, s.log, h.g, h.menu.job);
    }
  }

  lemma {:induction false} MoteAllFits(cfg: Config, log: Log, id: nat, st: MoteSpec.State)
    requires id < |cfg.kinds| && Causal(cfg, log) && MoteOk(cfg, log, id, st)
    ensures MoteFits(st)
  {
    hide Causal, MoteMay, HandledType, Publishes, Fits;
    if st.ack.slot.Some? { MotePacketFits(cfg, log, id, st.ack.slot.value.pkt); }
    if st.pushed.Some? {
      var q: Packet :| q.payload == st.pushed.value && Handled(Msg(Server, Mote(id), q)) in log;
      CauseOf(cfg, log, Handled(Msg(Server, Mote(id), q)));
      LoggedFits(cfg, log, Msg(Server, Mote(id), q));
      PayloadFits(q);
    }
  }

  lemma {:induction false} PayloadFits(p: Packet)
    requires Fits(p)
    ensures |p.payload| <= 49
  {
  }

  lemma {:induction false} MotePacketFits(cfg: Config, log: Log, id: nat, p: Packet)
    requires Causal(cfg, log) && id < |cfg.kinds| && MoteMay(cfg, log, id, p)
    ensures Fits(p) && (p.mst == PUBLISH ==> |p.payload| <= 4)
  {
    hide Causal, GasValueSent, PushHandled;
    if GasValueSent(log, id, p) { GasValueFits(cfg, log, id, p); }
  }

  lemma {:induction false} HostPacketFits(cfg: Config, log: Log, p: Packet, dst: Addr)
    requires Causal(cfg, log) && HostMay(log, p, dst)
    ensures Fits(p)
  {
    hide Causal, HandledType, PushOf, SubscribedTo;
    if PushOf(log, p) { PushFits(cfg, log, p); }
  }

  lemma {:induction false} PushFits(cfg: Config, log: Log, p: Packet)
    requires Causal(cfg, log) && PushOf(log, p)
    ensures Fits(p)
  {
    hide Causal, MoteMay, CommandPacket, PublishSeen;
    var q := PushSource(log, p);
    PublishedFits(cfg, log, q);
  }

  lemma {:induction false} PublishedFits(cfg: Config, log: Log, q: Packet)
    requires Causal(cfg, log) && PublishSeen(log, q)
    ensures |q.option| <= 19 && |q.payload| <= 5
  {
    hide Causal, MoteMay, CommandPacket;
    if Chosen(log, q) {
      var c :| MenuChose(c) in log && q == CommandPacket(c);
      CommandFits(c);
    } else {
      var id: nat :| q.mst == PUBLISH && Handled(Msg(Mote(id), Server, q)) in log;
      CauseOf(cfg, log, Handled(Msg(Mote(id), Server, q)));
      CauseOf(cfg, log, Sent(Msg(Mote(id), Server, q)));
      MotePacketFits(cfg, log, id, q);
    }
  }

  lemma {:induction false} CommandFits(c: Command)
    ensures |CommandPacket(c).option| <= 19 && |CommandPacket(c).payload| <= 5 && Fits(CommandPacket(c))
  {
  }

  // ---------- What never happens

  /** The commands "ON" and "OFF" reach a light behind four blanks, so its comparison never
      succeeds; a washer never starts, and so never publishes. */
  lemma {:induction false} CommandsAreNeverObeyed(cfg: Config, steps: seq<Step>, id: nat)
    requires id < |cfg.kinds| && id < |Exec(cfg, steps).motes|
    ensures var s := Exec(cfg, steps);
      && LightSwitched(id) !in s.log && !MoteSpec.LightSwitches(s.motes[id])
      && !s.motes[id].wamaTimer
      && (cfg.kinds[id] != MoteSpec.Gas ==>
            forall p: Packet :: p.mst == PUBLISH ==> Sent(Msg(Mote(id), Server, p)) !in s.log)
  {
    hide Exec, Causal, HostOk, MoteMay, AckOk, PushRead;
    Reachable(cfg, steps);
    var s := Exec(cfg, steps);
    assert MoteOk(cfg, s.log, id, s.motes[id]);
    assert "ON"[0] != "  "[0] && "OFF"[0] != "  "[0];
    if LightSwitched(id) in s.log {
      CauseOf(cfg, s.log, LightSwitched(id));
      assert false;
    }
    forall p: Packet | p.mst == PUBLISH && Sent(Msg(Mote(id), Server, p)) in s.log
      ensures cfg.kinds[id] == MoteSpec.Gas
    {
      CauseOf(cfg, s.log, Sent(Msg(Mote(id), Server, p)));
      MoteTypeShapes(cfg, s.log, id, p);
    }
  }
}
