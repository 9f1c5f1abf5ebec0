/** Every statement of the control server's threads keeps the invariant, whatever the
    other threads are doing, and so does every schedule of the whole system. */
module HostSteps {
  import opened Packets
  import opened Topics
  import opened Network
  import opened Causality
  import opened Invariant
  import opened MoteSteps
  import HostSpec

  // ---------- One statement of a send

  lemma {:induction false} ReliableIsPush(log: Log, p: Packet, dst: Addr)
    requires HostMay(log, p, dst) && p.rel
    ensures p.mst == PUSH
  {
  }

  lemma {:induction false} JobStepKeeps(cfg: Config, log: Log, g: HostSpec.Globals, job: HostSpec.Job)
    requires Causal(cfg, log) && GlobalsOk(log, g) && JobOk(log, g, job) && job.todo != []
    ensures
      var r := HostSpec.JobStep(g, job);
      var log' := log + ActEvents(r.act);
      && Causal(cfg, log') && GlobalsOk(log', r.g) && JobOk(log', r.g, r.job)
      && Fills(g, r.g) && Plain(ActEvents(r.act))
  {
    hide Causal, HostMay;
    var r := HostSpec.JobStep(g, job);
    var log' := log + ActEvents(r.act);
    var send := job.todo[0];
    if send.pkt.rel { ReliableIsPush(log, send.pkt, send.dst); }
    match job.pc
    case Enter =>
      CausalSnoc(cfg, log, Given(Msg(Server, send.dst, send.pkt)));
      assert log'[|log|] == Given(Msg(Server, send.dst, send.pkt));
      GlobalsOkGrows(log, log', r.g);
      JobOkGrows(log, log', g, r.g, Started(job));
    case Transmit =>
      CausalSnoc(cfg, log, Sent(Msg(Server, send.dst, send.pkt)));
      GlobalsOkGrows(log, log', g);
      JobOkGrows(log, log', g, g, HostSpec.Job(job.todo[1..], HostSpec.Enter));
    case _ =>
      assert log' == log;
  }

  function Started(job: HostSpec.Job): HostSpec.Job {
    HostSpec.Job(job.todo, HostSpec.Enter)
  }

  // ---------- The UDP thread

  lemma {:induction false} UdpReceiveKeeps(cfg: Config, s: Sys, m: Msg)
    requires Inv(cfg, s)
    ensures Inv(cfg, UdpReceive(s, m))
  {
    hide Causal, MoteOk, GlobalsOk, MenuOk, TableOk, TableAfter, Requests;
  }

  lemma {:induction false} UdpTestKeeps(cfg: Config, s: Sys)
    requires Inv(cfg, s) && (!s.host.udp.Dispatching? && !s.host.udp.Working?)
    ensures Inv(cfg, UdpRun(s))
  {
    hide Causal, MoteOk, TableOk, TableAfter, Requests, JobOk, PacketGiven, DestGiven;
    var g, g' := s.host.g, UdpRun(s).host.g;
    MenuOkGrows(s.log, s.log, g, g', s.host.menu);
  }

  /** What the server may do with a packet from a sensor node. */
  lemma {:induction false} FromMote(cfg: Config, log: Log, m: Msg)
    requires Causal(cfg, log) && Sent(m) in log && m.dst == Server
    ensures m.src.Mote? && m.src.id < |cfg.kinds| && MoteMay(cfg, log, m.src.id, m.pkt)
  {
    hide Causal, MoteMay;
    CauseOf(cfg, log, Sent(m));
    NotToItself(cfg, log);
  }

  ghost predicate NoSelfTalk(log: Log) {
    forall m: Msg :: m.src == Server && m.dst == Server ==>
      Sent(m) !in log && Handled(m) !in log && Given(m) !in log
  }

  /** The server only answers and serves sensor nodes, so it never addresses itself. */
  lemma {:induction false} NotToItself(cfg: Config, log: Log)
    requires Causal(cfg, log)
    ensures NoSelfTalk(log)
  {
    hide MoteMay, HostMay;
    if log != [] {
      var before, last := log[..|log| - 1], log[|log| - 1];
      assert log == before + [last];
      NotToItself(cfg, before);
      forall q ensures !HostMay(before, q, Server) { ServerIsNoClient(before, q); }
    }
  }

  lemma {:induction false} ServerIsNoClient(log: Log, q: Packet)
    requires NoSelfTalk(log)
    ensures !HostMay(log, q, Server)
  {
  }

  /** The replies to a packet the server has just handled. */
  lemma {:induction false} AnswersMay(cfg: Config, log: Log, t: Table, m: Msg)
    requires m.src.Mote? && m.src.id < |cfg.kinds| && m.dst == Server
    requires MoteMay(cfg, log, m.src.id, m.pkt) && TableOk(log, t)
    ensures
      var todo := HostSpec.Replies(t, m.pkt, m.src);
      forall k :: 0 <= k < |todo| ==> HostMay(log + [Handled(m)], todo[k].pkt, todo[k].dst)
  {
    hide HandledType, PushOf, SubscribedTo, TableOk, Pushes;
    var log1 := log + [Handled(m)];
    var todo := HostSpec.Replies(t, m.pkt, m.src);
    assert log1[|log|] == Handled(m);
    assert HandledType(log1, m.src, m.pkt.mst) by { JustHandled(log, m); }
    if m.pkt.mst == HELLO {
      assert m.pkt == HelloInit();
    } else if m.pkt.mst == PUBLISH {
      var pushes := Pushes(PublishSlots(t), m.pkt);
      PublishJustSeen(log, m);
      TableOkGrows(log, log1, t);
      TablePrefix(log1, t);
      PushesMay(log1, PublishSlots(t), m.pkt);
      assert forall k :: 0 <= k < |pushes| ==> HostMay(log1, pushes[k].pkt, pushes[k].dst);
    }
  }

  lemma {:induction false} JustHandled(log: Log, m: Msg)
    requires m.dst == Server
    ensures HandledType(log + [Handled(m)], m.src, m.pkt.mst)
  {
    assert (log + [Handled(m)])[|log|] == Handled(Msg(m.src, Server, m.pkt));
  }

  lemma {:induction false} PublishJustSeen(log: Log, m: Msg)
    requires m.dst == Server && m.src.Mote? && m.pkt.mst == PUBLISH
    ensures PublishSeen(log + [Handled(m)], m.pkt)
  {
    assert (log + [Handled(m)])[|log|] == Handled(Msg(Mote(m.src.id), Server, m.pkt));
  }

  lemma {:induction false} TablePrefix(log: Log, t: Table)
    requires TableOk(log, t)
    ensures TableOk(log, PublishSlots(t))
  {
  }

  lemma {:induction false} PushesMay(log: Log, t: Table, q: Packet)
    requires PublishSeen(log, q) && TableOk(log, t)
    ensures forall k :: 0 <= k < |Pushes(t, q)| ==> HostMay(log, Pushes(t, q)[k].pkt, Pushes(t, q)[k].dst)
  {
    hide HostMay, SlotOk;
    if t != [] {
      PushesMay(log, t[..|t| - 1], q);
      SlotPushesMay(log, t[|t| - 1], q);
    }
  }

  lemma {:induction false} SlotPushesMay(log: Log, slot: Option<Topic>, q: Packet)
    requires PublishSeen(log, q) && (slot.Some? ==> SlotOk(log, slot.value))
    ensures var sends := SlotPushes(slot, q);
      forall k :: 0 <= k < |sends| ==> HostMay(log, sends[k].pkt, sends[k].dst)
  {
    hide PublishSeen, SubscribedTo;
    if slot.Some? {
      EntryPushesOfPair(slot.value.ips, q);
      assert PushOf(log, Push(q));
      assert Push(q).option == q.option;
    }
  }

  lemma {:induction false} RequestsOfHandled(log: Log, m: Msg)
    requires m.dst == Server
    ensures Requests(log + [Handled(m)]) ==
      Requests(log) + if m.pkt.mst == SUBSCRIBE then [Request(m.pkt.option, m.src)] else []
    ensures forall id :: Publishes(log + [Handled(m)], id) == Publishes(log, id)
  {
    assert (log + [Handled(m)])[..|log|] == log;
  }

  lemma {:induction false} RegisterOk(cfg: Config, log: Log, t: Table, m: Msg)
    requires m.src.Mote? && m.src.id < |cfg.kinds| && m.dst == Server
    requires MoteMay(cfg, log, m.src.id, m.pkt) && TableOk(log, t)
    requires t == TableAfter(Requests(log), cfg.serverTopics)
    ensures
      var log1, t1 := log + [Handled(m)], HostSpec.TopicsAfter(t, m.pkt, m.src);
      TableOk(log1, t1) && t1 == TableAfter(Requests(log1), cfg.serverTopics)
  {
    hide TableAfter, Register, Requests, MoteMay;
    var log1 := log + [Handled(m)];
    TableOkGrows(log, log1, t);
    RequestsOfHandled(log, m);
    if m.pkt.mst == SUBSCRIBE {
      TableAfterOne(Requests(log), Request(m.pkt.option, m.src), cfg.serverTopics);
      SubscribeShape(cfg, log, m.src.id, m.pkt);
      assert SubscribedTo(log1, m.pkt.option, m.src) by {
        assert log1[|log|] == Handled(Msg(m.src, Server, Subscribe(m.pkt.option)));
      }
      RegisterKeepsTableOk(log1, t, m.pkt.option, m.src);
    } else {
      assert Requests(log) + [] == Requests(log);
    }
  }

  lemma {:induction false} TableAfterOne(reqs: seq<Request>, r: Request, n: nat)
    ensures TableAfter(reqs + [r], n) == Register(TableAfter(reqs, n), r.name, r.from)
  {
    assert (reqs + [r])[..|reqs|] == reqs;
  }

  lemma {:induction false} SubscribeShape(cfg: Config, log: Log, id: nat, p: Packet)
    requires id < |cfg.kinds| && MoteMay(cfg, log, id, p) && p.mst == SUBSCRIBE
    ensures p == Subscribe(p.option)
  {
  }

  lemma {:induction false} RegisterKeepsTableOk(log: Log, t: Table, name: string, from: Addr)
    requires TableOk(log, t) && SubscribedTo(log, name, from)
    ensures TableOk(log, Register(t, name, from))
  {
    hide SubscribedTo;
    assert SlotOk(log, NewTopic(name, from));
  }

  lemma {:induction false} UdpDispatchKeeps(cfg: Config, s: Sys)
    requires Inv(cfg, s) && s.host.udp.Dispatching?
    ensures Inv(cfg, UdpRun(s))
  {
    hide Causal, Caused, MoteOk, GlobalsOk, JobOk, TableOk, TableAfter, Requests, MoteMay, HostMay, Publishes,
         HostSpec.Replies, HostSpec.TopicsAfter;
    var m, h := s.host.udp.m, s.host;
    var log1 := s.log + [Handled(m)];
    var todo := HostSpec.Replies(h.topics, m.pkt, m.src);
    FromMote(cfg, s.log, m);
    HandledCaused(cfg, s.log, m);
    CausalSnoc(cfg, s.log, Handled(m));
    RequestsOfHandled(s.log, m);
    MotesGrow(cfg, s, log1);
    AnswersMay(cfg, s.log, h.topics, m);
    FreshJob(log1, h.g, todo);
    GlobalsOkGrows(s.log, log1, h.g);
    MenuOkGrows(s.log, log1, h.g, h.g, h.menu);
    RegisterOk(cfg, s.log, h.topics, m);
  }

  lemma {:induction false} FreshJob(log: Log, g: HostSpec.Globals, todo: seq<Send>)
    requires forall k :: 0 <= k < |todo| ==> HostMay(log, todo[k].pkt, todo[k].dst)
    ensures JobOk(log, g, HostSpec.Job(todo, HostSpec.Enter))
  {
  }

  lemma {:induction false} UdpWorkKeeps(cfg: Config, s: Sys)
    requires Inv(cfg, s) && s.host.udp.Working?
    ensures Inv(cfg, UdpRun(s))
  {
    hide Causal, MoteOk, GlobalsOk, JobOk, TableOk, TableAfter, Requests, HostSpec.JobStep, Publishes, Plain;
    var h, job := s.host, s.host.udp.job;
    if job.todo != [] {
      var r := HostSpec.JobStep(h.g, job);
      var log1 := s.log + ActEvents(r.act);
      JobStepKeeps(cfg, s.log, h.g, job);
      forall id: nat ensures Publishes(log1, id) == Publishes(s.log, id) {
        PlainCounts(s.log, ActEvents(r.act), id);
      }
      PlainCounts(s.log, ActEvents(r.act), 0);
      MotesGrow(cfg, s, log1);
      MenuOkGrows(s.log, log1, h.g, r.g, h.menu);
      TableOkGrows(s.log, log1, h.topics);
    }
  }

  lemma {:induction false} UdpRunKeeps(cfg: Config, s: Sys)
    requires Inv(cfg, s)
    ensures Inv(cfg, UdpRun(s))
  {
    hide Inv;
    if s.host.udp.Dispatching? { UdpDispatchKeeps(cfg, s); }
    else if s.host.udp.Working? { UdpWorkKeeps(cfg, s); }
    else { UdpTestKeeps(cfg, s); }
  }

  // ---------- The menu thread

  lemma {:induction false} MenuChooseKeeps(cfg: Config, s: Sys, c: Command)
    requires Inv(cfg, s)
    ensures Inv(cfg, MenuChoose(s, c))
  {
    hide Causal, MoteOk, GlobalsOk, UdpOk, HostMay, TableOk, TableAfter, Requests, CommandPacket, Publishes;
    if s.host.menu.Prompt? {
      var e := MenuChose(c);
      var log1 := s.log + [e];
      CausalSnoc(cfg, s.log, e);
      forall id: nat ensures Publishes(log1, id) == Publishes(s.log, id) { PlainCounts(s.log, [e], id); }
      PlainCounts(s.log, [e], 0);
      MotesGrow(cfg, s, log1);
      HostOkGrows(cfg, s.log, log1, s.host);
      assert log1[|s.log|] == e;
    }
  }

  lemma {:induction false} MenuRunKeeps(cfg: Config, s: Sys)
    requires Inv(cfg, s)
    ensures Inv(cfg, MenuRun(s))
  {
    hide Causal, MoteOk, GlobalsOk, UdpOk, JobOk, TableOk, TableAfter, Requests, HostSpec.JobStep, Publishes, Plain,
         HostMay, SlotPushes;
    var h := s.host;
    if h.menu.Scanning? {
      var p, i, job := h.menu.p, h.menu.i, h.menu.job;
      if job.todo != [] {
        var r := HostSpec.JobStep(h.g, job);
        var log1 := s.log + ActEvents(r.act);
        JobStepKeeps(cfg, s.log, h.g, job);
        forall id: nat ensures Publishes(log1, id) == Publishes(s.log, id) {
          PlainCounts(s.log, ActEvents(r.act), id);
        }
        PlainCounts(s.log, ActEvents(r.act), 0);
        MotesGrow(cfg, s, log1);
        UdpOkGrows(s.log, log1, h.g, r.g, h.udp);
        TableOkGrows(s.log, log1, h.topics);
      } else if i < |h.topics| {
        ScannedSlotMay(s.log, h.topics, i, p);
        FreshJob(s.log, h.g, SlotPushes(h.topics[i], p));
      }
    }
  }

  lemma {:induction false} ScannedSlotMay(log: Log, t: Table, i: nat, p: Packet)
    requires TableOk(log, t) && i < |t| && Chosen(log, p)
    ensures var sends := SlotPushes(t[i], p);
      forall k :: 0 <= k < |sends| ==> HostMay(log, sends[k].pkt, sends[k].dst)
  {
    hide HostMay;
    assert PublishSeen(log, p);
    SlotPushesMay(log, t[i], p);
  }

  // ---------- The ack threads

  lemma {:induction false} AckWakeKeeps(cfg: Config, s: Sys)
    requires Inv(cfg, s)
    ensures Inv(cfg, AckWake(s))
  {
    hide Causal, MoteOk, TableOk, TableAfter, Requests, JobOk, PacketGiven, DestGiven;
    var g, g' := s.host.g, AckWake(s).host.g;
    UdpOkGrows(s.log, s.log, g, g', s.host.udp);
    MenuOkGrows(s.log, s.log, g, g', s.host.menu);
  }

  lemma {:induction false} SlotHalvesOk(cfg: Config, s: Sys)
    requires Inv(cfg, s)
    ensures s.host.g.packetAck.Some? ==> HalfOk(s.log, HostSpec.HasPacket(s.host.g.packetAck.value))
    ensures s.host.g.destAddrAck.Some? ==> HalfOk(s.log, HostSpec.HasDest(s.host.g.destAddrAck.value))
  {
    hide Causal, MoteOk, TableOk, TableAfter, Requests, UdpOk, MenuOk, PacketGiven, DestGiven;
  }

  lemma {:induction false} AckReadKeeps(cfg: Config, s: Sys, half: HostSpec.Half)
    requires Inv(cfg, s) && HalfOk(s.log, half)
    ensures Inv(cfg, AckRead(s, half))
  {
    hide Causal, MoteOk, TableOk, TableAfter, Requests, UdpOk, MenuOk, PacketGiven, DestGiven, HalfOk;
    var g, g' := s.host.g, AckRead(s, half).host.g;
    UdpOkGrows(s.log, s.log, g, g', s.host.udp);
    MenuOkGrows(s.log, s.log, g, g', s.host.menu);
  }

  lemma {:induction false} AckSendKeeps(cfg: Config, s: Sys, k: nat)
    requires Inv(cfg, s)
    ensures Inv(cfg, AckSend(s, k))
  {
    hide Causal, MoteOk, TableOk, TableAfter, Requests, UdpOk, MenuOk, GlobalsOk, Publishes;
    var g, g' := s.host.g, AckSend(s, k).host.g;
    if AckSend(s, k) != s {
      var e := Sent(Completed(g, g.reading[k]).value);
      var log1 := s.log + [e];
      CompletedCaused(cfg, s.log, g, k);
      CausalSnoc(cfg, s.log, e);
      forall id: nat ensures Publishes(log1, id) == Publishes(s.log, id) { PlainCounts(s.log, [e], id); }
      PlainCounts(s.log, [e], 0);
      MotesGrow(cfg, s, log1);
      GlobalsOkGrows(s.log, log1, g);
      FewerReaders(log1, g, k);
      UdpOkGrows(s.log, log1, g, g', s.host.udp);
      MenuOkGrows(s.log, log1, g, g', s.host.menu);
      TableOkGrows(s.log, log1, s.host.topics);
    }
  }

  lemma {:induction false} CompletedCaused(cfg: Config, log: Log, g: HostSpec.Globals, k: nat)
    requires GlobalsOk(log, g) && k < |g.reading| && Completed(g, g.reading[k]).Some?
    ensures Caused(cfg, log, Sent(Completed(g, g.reading[k]).value))
  {
    hide PacketGiven, DestGiven;
    assert HalfOk(log, g.reading[k]);
  }

  lemma {:induction false} FewerReaders(log: Log, g: HostSpec.Globals, k: nat)
    requires GlobalsOk(log, g) && k < |g.reading|
    ensures GlobalsOk(log, g.(sleeping := g.sleeping + 1, reading := g.reading[..k] + g.reading[k + 1..]))
  {
    hide PacketGiven, DestGiven, HalfOk;
  }

  // ---------- All schedules

  lemma {:induction false} InitKeeps(cfg: Config)
    ensures Inv(cfg, Init(cfg))
  {
    assert Requests([]) == [];
  }

  lemma {:induction false} ApplyKeeps(cfg: Config, s: Sys, step: Step)
    requires Inv(cfg, s)
    ensures Inv(cfg, Apply(s, step))
  {
    hide Inv;
    match step
    case MotePeriod(id) => PeriodKeeps(cfg, s, id);
    case MoteAckTimer(id) => AckTimerKeeps(cfg, s, id);
    case MotePingTimer(id) => PingTimerKeeps(cfg, s, id);
    case MoteReceives(m) => ReceiveKeeps(cfg, s, m);
    case UdpReceives(m) => UdpReceiveKeeps(cfg, s, m);
    case UdpRuns => UdpRunKeeps(cfg, s);
    case MenuChooses(c) => MenuChooseKeeps(cfg, s, c);
    case MenuRuns => MenuRunKeeps(cfg, s);
    case AckWakes => AckWakeKeeps(cfg, s);
    case AckReadsPacket =>
      if s.host.g.packetAck.Some? {
        SlotHalvesOk(cfg, s);
        AckReadKeeps(cfg, s, HostSpec.HasPacket(s.host.g.packetAck.value));
      }
    case AckReadsDest =>
      if s.host.g.destAddrAck.Some? {
        SlotHalvesOk(cfg, s);
        AckReadKeeps(cfg, s, HostSpec.HasDest(s.host.g.destAddrAck.value));
      }
    case AckSends(k) => AckSendKeeps(cfg, s, k);
  }

  /** Every reachable state satisfies the invariant. */
  lemma {:induction false} Reachable(cfg: Config, steps: seq<Step>)
    ensures Inv(cfg, Exec(cfg, steps))
  {
    hide Inv, Apply;
    if steps == [] {
      InitKeeps(cfg);
    } else {
      Reachable(cfg, steps[..|steps| - 1]);
      ApplyKeeps(cfg, Exec(cfg, steps[..|steps| - 1]), steps[|steps| - 1]);
    }
  }

  lemma {:induction false} ReachableState(cfg: Config, s: Sys)
    requires CanReach(cfg, s)
    ensures Inv(cfg, s)
  {
    hide Inv, Continue;
    var steps :| Continue(Init(cfg), steps) == s;
    Reachable(cfg, steps);
  }
}
