/** The server's retransmission slot is two globals, written by two statements and read one
    after the other. What an ack thread resends is an exact copy of an earlier send in a run
    that keeps each pair of accesses together, and in every run of an installation where all
    pushes are for one topic. */
module SharedSlot {
  import opened Packets
  import opened Topics
  import opened Network
  import opened Causality
  import opened Invariant
  import opened HostSteps
  import opened Guarantees
  import opened Served
  import MoteSpec
  import HostSpec

  // ---------- Runs in which `packetAck` and `destAddrAck` are accessed together

  /** The UDP or menu thread is about to execute this statement of a send. */
  predicate UdpAt(h: HostSpec.Host, pc: HostSpec.Pc) {
    h.udp.Working? && h.udp.job.todo != [] && h.udp.job.pc == pc
  }

  predicate MenuAt(h: HostSpec.Host, pc: HostSpec.Pc) {
    h.menu.Scanning? && h.menu.job.todo != [] && h.menu.job.pc == pc
  }

  /** A thread that wrote `packetAck` and not yet `destAddrAck`. */
  predicate UdpMidway(h: HostSpec.Host) { UdpAt(h, HostSpec.FillDest) }
  predicate MenuMidway(h: HostSpec.Host) { MenuAt(h, HostSpec.FillDest) }

  predicate StartsWriting(h: HostSpec.Host, step: Step) {
    (step == UdpRuns && UdpAt(h, HostSpec.FillPacket)) || (step == MenuRuns && MenuAt(h, HostSpec.FillPacket))
  }

  predicate StartsReading(h: HostSpec.Host, step: Step) {
    (step == AckReadsPacket || step == AckReadsDest) && h.g.sending > 0
  }

  /** The step is one that a lock around the two writes of `qosThread`, and around the two
      reads of `sendto`, allows: while a thread is between its two writes no other starts to
      write or read, and while an ack thread is between its two reads none starts to write.
      All other statements of all threads may come in between. */
  predicate Undisturbed(s: Sys, step: Step) {
    var h := s.host;
    && (UdpMidway(h) || MenuMidway(h) ==> !StartsWriting(h, step) && !StartsReading(h, step))
    && (h.g.reading != [] ==> !StartsWriting(h, step))
  }

  ghost predicate SlotIsLocked(cfg: Config, steps: seq<Step>) {
    forall k :: 0 <= k < |steps| ==> Undisturbed(Exec(cfg, steps[..k]), steps[k])
  }

  /** The slot as one message, once both halves are written. */
  function SlotMsg(g: HostSpec.Globals): Option<Msg> {
    if g.packetAck.Some? && g.destAddrAck.Some? then Some(Msg(Server, g.destAddrAck.value, g.packetAck.value))
    else None
  }

  /** What an ack thread has read is still what the slot holds. */
  predicate Current(g: HostSpec.Globals, half: HostSpec.Half) {
    match half
    case HasPacket(p) => g.packetAck == Some(p)
    case HasDest(d) => g.destAddrAck == Some(d)
  }

  predicate ReadersCurrent(g: HostSpec.Globals) {
    forall k :: 0 <= k < |g.reading| ==> Current(g, g.reading[k])
  }

  /** Half written, the slot belongs to one thread and has no reader; otherwise it is one
      earlier send, and every reader holds a half of that send. */
  ghost predicate Paired(s: Sys) {
    var h := s.host;
    && !(UdpMidway(h) && MenuMidway(h))
    && (UdpMidway(h) ==> h.g.packetAck == Some(h.udp.job.todo[0].pkt))
    && (MenuMidway(h) ==> h.g.packetAck == Some(h.menu.job.todo[0].pkt))
    && (UdpMidway(h) || MenuMidway(h) ==> h.g.reading == [])
    && (!UdpMidway(h) && !MenuMidway(h) && SlotMsg(h.g).Some? ==> Given(SlotMsg(h.g).value) in s.log)
    && ReadersCurrent(h.g)
  }

  /** Everything the server has sent was first given to `sendPacket`, as it is. */
  ghost predicate OnlyCopies(log: Log) {
    forall m: Msg :: m.src == Server && Sent(m) in log ==> Given(m) in log
  }

  lemma {:induction false} JobKeepsPairing(cfg: Config, s: Sys, job: HostSpec.Job)
    requires JobOk(s.log, s.host.g, job) && job.todo != []
    requires SlotMsg(s.host.g).Some? && !job.pc.FillDest? ==> Given(SlotMsg(s.host.g).value) in s.log
    requires job.pc.FillDest? ==> s.host.g.packetAck == Some(job.todo[0].pkt)
    requires job.pc.FillDest? || job.pc.FillPacket? ==> s.host.g.reading == []
    requires OnlyCopies(s.log) && ReadersCurrent(s.host.g)
    ensures
      var r := HostSpec.JobStep(s.host.g, job);
      var log' := s.log + ActEvents(r.act);
      && (r.job.pc.FillDest? ==> r.job.todo != [] && r.g.reading == [] && r.g.packetAck == Some(r.job.todo[0].pkt))
      && (!r.job.pc.FillDest? && SlotMsg(r.g).Some? ==> Given(SlotMsg(r.g).value) in log')
      && r.g.reading == s.host.g.reading && ReadersCurrent(r.g)
      && OnlyCopies(log')
  {
    hide HostMay;
    var r := HostSpec.JobStep(s.host.g, job);
    var log' := s.log + ActEvents(r.act);
    assert Extends(s.log, log');
  }

  /** A statement that does not write the slot can come at any time. */
  lemma {:induction false} OtherStatement(log: Log, g: HostSpec.Globals, job: HostSpec.Job)
    requires JobOk(log, g, job) && job.todo != [] && !job.pc.FillPacket? && !job.pc.FillDest? && OnlyCopies(log)
    ensures
      var r := HostSpec.JobStep(g, job);
      var log' := log + ActEvents(r.act);
      && r.g.packetAck == g.packetAck && r.g.destAddrAck == g.destAddrAck && r.g.reading == g.reading
      && !(r.job.todo != [] && r.job.pc.FillDest?)
      && OnlyCopies(log') && forall e :: e in log ==> e in log'
  {
    hide HostMay;
  }

  lemma {:induction false} UdpKeepsPairing(cfg: Config, s: Sys)
    requires Inv(cfg, s) && Paired(s) && OnlyCopies(s.log) && Undisturbed(s, UdpRuns)
    ensures Paired(UdpRun(s)) && OnlyCopies(UdpRun(s).log)
  {
    hide Causal, MoteOk, GlobalsOk, MenuOk, TableOk, TableAfter, Requests, JobOk, HostSpec.JobStep, OnlyCopies,
         HostSpec.Replies, HostSpec.TopicsAfter;
    if s.host.udp.Working? && s.host.udp.job.todo != [] {
      if UdpAt(s.host, HostSpec.FillPacket) || UdpMidway(s.host) { JobKeepsPairing(cfg, s, s.host.udp.job); }
      else { OtherStatement(s.log, s.host.g, s.host.udp.job); }
    } else if s.host.udp.Dispatching? {
      CopiesPlus(s.log, Handled(s.host.udp.m));
    }
  }

  lemma {:induction false} CopiesPlus(log: Log, e: Event)
    requires OnlyCopies(log) && (e.Sent? && e.m.src == Server ==> Given(e.m) in log)
    ensures OnlyCopies(log + [e])
  {
  }

  lemma {:induction false} MenuKeepsPairing(cfg: Config, s: Sys)
    requires Inv(cfg, s) && Paired(s) && OnlyCopies(s.log) && Undisturbed(s, MenuRuns)
    ensures Paired(MenuRun(s)) && OnlyCopies(MenuRun(s).log)
  {
    hide Causal, MoteOk, GlobalsOk, UdpOk, TableOk, TableAfter, Requests, JobOk, HostSpec.JobStep, OnlyCopies,
         SlotPushes;
    if s.host.menu.Scanning? && s.host.menu.job.todo != [] {
      if MenuAt(s.host, HostSpec.FillPacket) || MenuMidway(s.host) { JobKeepsPairing(cfg, s, s.host.menu.job); }
      else { OtherStatement(s.log, s.host.g, s.host.menu.job); }
    }
  }

  lemma {:induction false} MoteKeepsPairing(s: Sys, id: nat, before: Log, r: MoteSpec.Result, after: Log)
    requires id < |s.motes| && Paired(s) && OnlyCopies(s.log)
    requires forall k :: 0 <= k < |before| ==> !before[k].Sent?
    requires forall k :: 0 <= k < |after| ==> !after[k].Sent?
    ensures Paired(MoteStep(s, id, before, r, after)) && OnlyCopies(MoteStep(s, id, before, r, after).log)
  {
    var s' := MoteStep(s, id, before, r, after);
    forall m: Msg | m.src == Server && Sent(m) in s'.log ensures Sent(m) in s.log {
      var sent := SentBy(Mote(id), r.out);
      assert Sent(m) !in before && Sent(m) !in after;
      assert Sent(m) !in sent;
    }
  }

  lemma {:induction false} OthersKeepPairing(cfg: Config, s: Sys, step: Step)
    requires Inv(cfg, s) && Paired(s) && OnlyCopies(s.log) && Undisturbed(s, step)
    requires step != UdpRuns && step != MenuRuns
    ensures Paired(Apply(s, step)) && OnlyCopies(Apply(s, step).log)
  {
    hide Causal, MoteOk, HostOk, MoteSpec.Period, MoteSpec.AckTick, MoteSpec.PingTick, MoteSpec.RxCallback, MoteStep,
         CommandPacket, OnlyCopies, Paired;
    match step
    case MotePeriod(id) =>
      if id < |s.motes| {
        MoteKeepsPairing(s, id, PeriodEvents(s.motes[id], id), MoteSpec.Period(s.motes[id]), []);
      }
    case MoteAckTimer(id) =>
      if id < |s.motes| { MoteKeepsPairing(s, id, [], MoteSpec.AckTick(s.motes[id]), []); }
    case MotePingTimer(id) =>
      if id < |s.motes| { MoteKeepsPairing(s, id, [], MoteSpec.PingTick(s.motes[id]), []); }
    case MoteReceives(m) =>
      if m.dst.Mote? && m.dst.id < |s.motes| {
        var r := MoteSpec.RxCallback(s.motes[m.dst.id], m.pkt, m.src);
        MoteKeepsPairing(s, m.dst.id, [Handled(m)], r, CallbackEvents(r.state, m.dst.id));
      }
    case _ => ServerKeepsPairing(s, step);
  }

  lemma {:induction false} ServerKeepsPairing(s: Sys, step: Step)
    requires Paired(s) && OnlyCopies(s.log) && Undisturbed(s, step)
    requires step.UdpReceives? || step.MenuChooses? || step == AckWakes || step == AckReadsPacket ||
      step == AckReadsDest || step.AckSends?
    ensures Paired(Apply(s, step)) && OnlyCopies(Apply(s, step).log)
  {
    hide CommandPacket, OnlyCopies;
    match step
    case UdpReceives(m) =>
    case MenuChooses(c) => CopiesPlus(s.log, MenuChose(c));
    case AckWakes =>
    case AckReadsPacket =>
    case AckReadsDest =>
    case AckSends(k) =>
      if k < |s.host.g.reading| && Completed(s.host.g, s.host.g.reading[k]).Some? {
        assert Current(s.host.g, s.host.g.reading[k]);
        CopiesPlus(s.log, Sent(SlotMsg(s.host.g).value));
      }
  }

  /** With the slot locked, every packet the server sends, resent or not, is one it was
      given with that very destination; so every push goes to a subscriber of its topic. */
  lemma {:induction false} LockedSlotSendsCopies(cfg: Config, steps: seq<Step>)
    requires SlotIsLocked(cfg, steps)
    ensures Paired(Exec(cfg, steps)) && OnlyCopies(Exec(cfg, steps).log)
  {
    hide Inv, Apply, Paired, OnlyCopies, Undisturbed;
    if steps == [] {
      InitIsPaired(cfg);
    } else {
      var before, last := steps[..|steps| - 1], steps[|steps| - 1];
      assert forall k :: 0 <= k < |before| ==> before[..k] == steps[..k] && before[k] == steps[k];
      LockedSlotSendsCopies(cfg, before);
      Reachable(cfg, before);
      assert steps[..|steps| - 1] == before;
      LockedStep(cfg, Exec(cfg, before), last);
    }
  }

  lemma {:induction false} InitIsPaired(cfg: Config)
    ensures Paired(Init(cfg)) && OnlyCopies(Init(cfg).log)
  {
  }

  lemma {:induction false} LockedStep(cfg: Config, s: Sys, step: Step)
    requires Inv(cfg, s) && Paired(s) && OnlyCopies(s.log) && Undisturbed(s, step)
    ensures Paired(Apply(s, step)) && OnlyCopies(Apply(s, step).log)
  {
    hide Inv, Paired, OnlyCopies, UdpRun, MenuRun;
    if step == UdpRuns { UdpKeepsPairing(cfg, s); }
    else if step == MenuRuns { MenuKeepsPairing(cfg, s); }
    else { OthersKeepPairing(cfg, s, step); }
  }

  lemma {:induction false} LockedPushesReachSubscribers(cfg: Config, steps: seq<Step>)
    requires SlotIsLocked(cfg, steps)
    ensures PushesReachSubscribers(Exec(cfg, steps).log)
  {
    hide Exec, Causal, OnlyCopies, PushesReachSubscribers, Paired, SlotIsLocked;
    LockedSlotSendsCopies(cfg, steps);
    Reachable(cfg, steps);
    CopiesReachSubscribers(cfg, Exec(cfg, steps).log);
  }

  // ---------- Runs of an installation in which the two statements cannot matter

  /** Both kinds of push can be sent: the gas value to the alarm and the command to the light. */
  predicate MayMix(cfg: Config) {
    MoteSpec.Light in cfg.kinds && MoteSpec.Gas in cfg.kinds && MoteSpec.Alarm in cfg.kinds && cfg.serverTopics >= 2
  }

  ghost predicate PushesReachSubscribers(log: Log) {
    forall m: Msg :: m.src == Server && m.pkt.mst == PUSH && Sent(m) in log ==> SubscribedTo(log, m.pkt.option, m.dst)
  }

  /** A push is about gas, for an alarm, or about the light. */
  lemma {:induction false} PushTopic(cfg: Config, log: Log, m: Msg)
    requires Causal(cfg, log) && Given(m) in log && m.pkt.mst == PUSH
    ensures
      || (m.pkt.option == "GAS" && MoteSpec.Gas in cfg.kinds && MoteSpec.Alarm in cfg.kinds)
      || (m.pkt.option == "Light" && MoteSpec.Light in cfg.kinds)
  {
    hide Causal, MoteMay, HostMay, CommandPacket, MoteSpec.TopicOf;
    CauseOf(cfg, log, Given(m));
    PushIsPushOf(log, m.pkt, m.dst);
    SubscribersKind(cfg, log, m.pkt.option, m.dst);
    TopicsOfKinds(cfg.kinds[m.dst.id]);
    var q: Packet :| PublishSeen(log, q) && m.pkt == Push(q);
    assert m.pkt.option == q.option;
    if Chosen(log, q) {
      var c :| MenuChose(c) in log && q == CommandPacket(c);
      CommandShape(c);
    } else {
      var id: nat :| q.mst == PUBLISH && Handled(Msg(Mote(id), Server, q)) in log;
      CauseOf(cfg, log, Handled(Msg(Mote(id), Server, q)));
      FromMote(cfg, log, Msg(Mote(id), Server, q));
      MoteTypeShapes(cfg, log, id, q);
      GasValueIsGas(log, id, q);
    }
  }

  /** Then all pushes ever given are for one topic, so for one address. */
  lemma {:induction false} OneDestination(cfg: Config, s: Sys, m: Msg, m': Msg)
    requires Inv(cfg, s) && GivenServed(s.log, s.host.topics) && !MayMix(cfg)
    requires Given(m) in s.log && m.pkt.mst == PUSH && Given(m') in s.log && m'.pkt.mst == PUSH
    ensures m.pkt.option == m'.pkt.option && m.dst == m'.dst
  {
    hide Causal, MoteOk, GlobalsOk, UdpOk, MenuOk, TableOk, Requests;
    var t := s.host.topics;
    PushTopic(cfg, s.log, m);
    PushTopic(cfg, s.log, m');
    assert SendServed(t, Send(m.pkt, m.dst)) && SendServed(t, Send(m'.pkt, m'.dst));
    if cfg.serverTopics < 2 { OneSlotOneTopic(t, m.pkt.option, m.dst, m'.pkt.option, m'.dst); }
  }

  lemma {:induction false} OneSlotOneTopic(t: Table, name: string, a: Addr, name': string, a': Addr)
    requires |t| <= 1 && Serves(t, name, a) && Serves(t, name', a')
    ensures name == name'
  {
    assert IsAt(t, 0, name) && IsAt(t, 0, name');
  }

  /** So even a mixture of two sends is a copy of one. */
  lemma {:induction false} AlwaysCopies(cfg: Config, steps: seq<Step>)
    requires !MayMix(cfg)
    ensures OnlyCopies(Exec(cfg, steps).log) && PushesReachSubscribers(Exec(cfg, steps).log)
  {
    hide Exec, MayMix, Causal, MoteMay, HostMay, SubscribedTo, Owed, Pushed, Pending, UdpServed, MenuServed, PushGiven,
         GivenServed;
    Reachable(cfg, steps);
    ServerReachable(cfg, steps);
    var s := Exec(cfg, steps);
    forall m: Msg | m.src == Server && Sent(m) in s.log ensures Given(m) in s.log {
      CauseOf(cfg, s.log, Sent(m));
      if Given(m) !in s.log {
        var d: Addr :| Given(Msg(Server, d, m.pkt)) in s.log;
        var q: Packet :| q.mst == PUSH && Given(Msg(Server, m.dst, q)) in s.log;
        OneDestination(cfg, s, Msg(Server, d, m.pkt), Msg(Server, m.dst, q));
        assert false;
      }
    }
    CopiesReachSubscribers(cfg, s.log);
  }

  lemma {:induction false} CopiesReachSubscribers(cfg: Config, log: Log)
    requires Causal(cfg, log) && OnlyCopies(log)
    ensures PushesReachSubscribers(log)
  {
    hide Causal, HostMay, SubscribedTo;
    forall m: Msg | m.src == Server && m.pkt.mst == PUSH && Sent(m) in log
      ensures SubscribedTo(log, m.pkt.option, m.dst)
    {
      CauseOf(cfg, log, Given(m));
      PushIsPushOf(log, m.pkt, m.dst);
    }
  }
}
