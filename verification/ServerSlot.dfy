/** What the server's slot holds: without a light, the last push. */
module ServerSlot {
  import opened Packets
  import opened Topics
  import opened Network
  import opened Causality
  import opened Invariant
  import opened HostSteps
  import opened Guarantees
  import opened Served
  import opened ServerFlag
  import opened SharedSlot
  import HostSpec
  import MoteSpec

  function LastPush(log: Log): Option<Send> {
    if Pushed(log) == [] then None else Some(Pushed(log)[|Pushed(log)| - 1])
  }

  /** The UDP thread is at this statement, for the last push. */
  predicate FillingAt(s: Sys, pc: HostSpec.Pc) { UdpAt(s.host, pc) && LastPush(s.log) == Some(s.host.udp.job.todo[0]) }

  /** Between entering `sendPacket` and writing the second half the slot is being filled. */
  predicate Filling(h: HostSpec.Host) {
    UdpAt(h, HostSpec.SetWanted) || UdpAt(h, HostSpec.FillPacket) || UdpAt(h, HostSpec.FillDest)
  }

  ghost predicate SlotInv(s: Sys) {
    var h := s.host;
    && (UdpAt(h, HostSpec.SetWanted) ==> FillingAt(s, HostSpec.SetWanted))
    && (UdpAt(h, HostSpec.FillPacket) ==> FillingAt(s, HostSpec.FillPacket))
    && (UdpAt(h, HostSpec.FillDest) ==>
          FillingAt(s, HostSpec.FillDest) && h.g.packetAck == Some(LastPush(s.log).value.pkt))
    && (!Filling(h) && LastPush(s.log).Some? ==>
          h.g.packetAck == Some(LastPush(s.log).value.pkt) && h.g.destAddrAck == Some(LastPush(s.log).value.dst))
  }

  /** Without a light a reliable packet passed to `sendPacket` is a gas push, and the other
      way round. */
  lemma {:induction false} ReliableIsGas(cfg: Config, log: Log, p: Packet, dst: Addr)
    requires Causal(cfg, log) && HostMay(log, p, dst) && !HasLight(cfg)
    ensures p.rel <==> IsGasPush(p)
  {
    hide Causal, MoteMay, CommandPacket, MoteSpec.TopicOf, SubscribedTo, HandledType;
    if p.rel { ReliableIsPush(log, p, dst); }
    if p.mst == PUSH {
      PushIsPushOf(log, p, dst);
      SubscribersKind(cfg, log, p.option, dst);
      TopicsOfKinds(cfg.kinds[dst.id]);
      var q: Packet :| PublishSeen(log, q) && p == Push(q);
      assert p.option == q.option && p.rel == q.rel;
      if Chosen(log, q) {
        var c :| MenuChose(c) in log && q == CommandPacket(c);
        CommandShape(c);
      } else {
        var id: nat :| q.mst == PUBLISH && Handled(Msg(Mote(id), Server, q)) in log;
        CauseOf(cfg, log, Handled(Msg(Mote(id), Server, q)));
        FromMote(cfg, log, Msg(Mote(id), Server, q));
        MoteTypeShapes(cfg, log, id, q);
        GasValueIsGas(log, id, q);
      }
    }
  }

  lemma {:induction false} SilentLast(log: Log, es: Log)
    requires Silent(es)
    ensures LastPush(log + es) == LastPush(log)
  {
    hide Owed, Pushed;
    SilentBooks(log, es, 0);
  }

  lemma {:induction false} LastAfter(log: Log, e: Event)
    ensures LastPush(log + [e]) ==
      if e.Given? && IsGasPush(e.m.pkt) then Some(Send(e.m.pkt, e.m.dst)) else LastPush(log)
  {
    hide Owed, Pushed, IsGasPush;
    BooksAfter(log, e, 0);
    assert Pushed(log) + [] == Pushed(log);
  }

  lemma {:induction false} UdpWorkSlots(s: Sys)
    requires SlotInv(s) && s.host.udp.Working? && s.host.udp.job.todo != []
    requires s.host.udp.job.todo[0].pkt.rel <==> IsGasPush(s.host.udp.job.todo[0].pkt)
    ensures SlotInv(UdpRun(s))
  {
    hide LastPush, IsGasPush;
    var job := s.host.udp.job;
    var m := Msg(Server, job.todo[0].dst, job.todo[0].pkt);
    assert s.log + [] == s.log;
    LastAfter(s.log, Given(m));
    LastAfter(s.log, Sent(m));
  }

  lemma {:induction false} UdpJobIsGas(cfg: Config, s: Sys)
    requires Inv(cfg, s) && !HasLight(cfg) && s.host.udp.Working? && s.host.udp.job.todo != []
    ensures s.host.udp.job.todo[0].pkt.rel <==> IsGasPush(s.host.udp.job.todo[0].pkt)
  {
    hide Causal, MoteOk, GlobalsOk, MenuOk, TableOk, TableAfter, Requests, HostMay, HasLight, IsGasPush;
    ReliableIsGas(cfg, s.log, s.host.udp.job.todo[0].pkt, s.host.udp.job.todo[0].dst);
  }

  lemma {:induction false} UdpRunSlots(cfg: Config, s: Sys)
    requires Inv(cfg, s) && SlotInv(s) && !HasLight(cfg)
    ensures SlotInv(UdpRun(s))
  {
    hide Inv, HasLight, LastPush, HostSpec.Replies, HostSpec.TopicsAfter, IsGasPush;
    if s.host.udp.Working? && s.host.udp.job.todo != [] {
      UdpJobIsGas(cfg, s);
      UdpWorkSlots(s);
    } else if s.host.udp.Dispatching? {
      LastAfter(s.log, Handled(s.host.udp.m));
    }
  }

  /** A step that sends nothing reliable and leaves the slot alone. */
  lemma {:induction false} OtherSlots(s: Sys, s': Sys, es: Log)
    requires SlotInv(s) && Silent(es) && s'.log == s.log + es && s'.host.udp == s.host.udp
    requires s'.host.g.packetAck == s.host.g.packetAck && s'.host.g.destAddrAck == s.host.g.destAddrAck
    ensures SlotInv(s')
  {
    hide LastPush, Silent;
    SilentLast(s.log, es);
  }

  lemma {:induction false} OtherServerStepSlots(s: Sys, step: Step)
    requires SlotInv(s) && !IsNodeStep(step) && step != UdpRuns
    requires s.host.menu.Scanning? ==> s.host.menu.job.todo == []
    ensures SlotInv(Apply(s, step))
  {
    hide LastPush, CommandPacket, Completed, SlotPushes, SlotInv, Silent;
    var s' := Apply(s, step);
    assert s.log + [] == s.log && Silent([]) by { NothingIsSilent(); }
    match step
    case UdpReceives(m) => ReceiveSlots(s, m);
    case MenuChooses(c) =>
      if s.host.menu.Prompt? {
        OneSilent(s.log, MenuChose(c));
        OtherSlots(s, s', [MenuChose(c)]);
      } else {
        OtherSlots(s, s', []);
      }
    case AckSends(k) =>
      if s' != s {
        OneSilent(s.log, Sent(Completed(s.host.g, s.host.g.reading[k]).value));
        OtherSlots(s, s', [Sent(Completed(s.host.g, s.host.g.reading[k]).value)]);
      }
    case _ => OtherSlots(s, s', []);
  }

  lemma {:induction false} ReceiveSlots(s: Sys, m: Msg)
    requires SlotInv(s)
    ensures SlotInv(UdpReceive(s, m))
  {
    hide LastPush;
  }

  lemma {:induction false} ApplySlots(cfg: Config, s: Sys, step: Step)
    requires Inv(cfg, s) && ServerInv(cfg, s) && SlotInv(s) && !HasLight(cfg)
    ensures SlotInv(Apply(s, step))
  {
    hide Inv, SlotInv, HasLight, UdpRun, AllServed, Owed, Pushed, Pending, GivenServed, UdpServed, PushGiven;
    if step == UdpRuns {
      UdpRunSlots(cfg, s);
    } else if IsNodeStep(step) {
      var es := NodeStepIsSilent(s, step);
      OtherSlots(s, Apply(s, step), es);
    } else {
      MenuHasNoPush(cfg, s);
      OtherServerStepSlots(s, step);
    }
  }

  lemma {:induction false} InitSlots(cfg: Config)
    ensures SlotInv(Init(cfg))
  {
  }

  lemma {:induction false} SlotReachable(cfg: Config, steps: seq<Step>)
    requires !HasLight(cfg)
    ensures SlotInv(Exec(cfg, steps))
  {
    hide Inv, Apply, ServerInv, SlotInv, HasLight;
    if steps == [] {
      InitSlots(cfg);
    } else {
      var before := steps[..|steps| - 1];
      SlotReachable(cfg, before);
      Reachable(cfg, before);
      ServerReachable(cfg, before);
      ApplySlots(cfg, Exec(cfg, before), steps[|steps| - 1]);
    }
  }

  /** Without a light, in every reachable state in which the UDP thread is not filling the
      slot, it holds the last push, with that push's own destination. So what an ack thread
      resends then is the last push. */
  lemma {:induction false} SlotIsLastPush(cfg: Config, steps: seq<Step>)
    requires !HasLight(cfg)
    ensures var s := Exec(cfg, steps);
      Pushed(s.log) != [] && !Filling(s.host) ==>
        var last := Pushed(s.log)[|Pushed(s.log)| - 1];
        s.host.g.packetAck == Some(last.pkt) && s.host.g.destAddrAck == Some(last.dst)
  {
    hide Exec, Pushed, HasLight, Filling;
    SlotReachable(cfg, steps);
  }
}
