/** The state invariant that goes with the causal log, and its proof for every step. */
module Invariant {
  import opened Packets
  import opened Topics
  import opened Network
  import opened Causality
  import MoteSpec
  import HostSpec

  // ---------- The invariant

  /** The acknowledgement variables of a node. */
  ghost predicate AckOk(cfg: Config, log: Log, id: nat, a: MoteSpec.Ack)
    requires id < |cfg.kinds|
  {
    && (a.slot.Some? ==>
          && a.slot.value.dst == Server && a.slot.value.pkt.rel
          && MoteMay(cfg, log, id, a.slot.value.pkt)
          && a.wanted == a.slot.value.pkt.mst + 1
          && (a.rcv ==> HandledType(log, Mote(id), a.slot.value.pkt.mst)))
    && (a.slot.None? ==> a.wanted == 0 && !a.running)
  }

  ghost predicate PushedOk(log: Log, id: nat, pushed: Option<string>) {
    pushed.Some? ==> PushRead(log, id, pushed.value) && "  " <= pushed.value
  }

  ghost predicate MoteOk(cfg: Config, log: Log, id: nat, s: MoteSpec.State)
    requires id < |cfg.kinds|
  {
    && s.kind == cfg.kinds[id]
    && (s.connected ==> Connected(log, id))
    && PushedOk(log, id, s.pushed)
    && AckOk(cfg, log, id, s.ack)
    && s.ping.dst == Server
    && s.gasValue == GasAfter(Publishes(log, id))
    && !s.wamaTimer
  }

  ghost predicate GlobalsOk(log: Log, g: HostSpec.Globals) {
    && g.ackTypeWanted in {0, PUSHACK}
    && (g.packetAck.Some? ==> PacketGiven(log, g.packetAck.value))
    && (g.destAddrAck.Some? ==> DestGiven(log, g.destAddrAck.value))
    && (g.sleeping + g.sending + |g.reading| > 0 ==> g.packetAck.Some? && g.destAddrAck.Some?)
    && (forall k :: 0 <= k < |g.reading| ==> HalfOk(log, g.reading[k]))
  }

  ghost predicate HalfOk(log: Log, half: HostSpec.Half) {
    match half
    case HasPacket(p) => PacketGiven(log, p)
    case HasDest(d) => DestGiven(log, d)
  }

  /** A thread in the middle of its sends. */
  ghost predicate JobOk(log: Log, g: HostSpec.Globals, job: HostSpec.Job) {
    && (forall k :: 0 <= k < |job.todo| ==> HostMay(log, job.todo[k].pkt, job.todo[k].dst))
    && (!job.pc.Enter? ==>
          job.todo != [] && Given(Msg(Server, job.todo[0].dst, job.todo[0].pkt)) in log)
    && (job.pc in {HostSpec.SetWanted, HostSpec.FillPacket, HostSpec.FillDest, HostSpec.Spawn} ==> job.todo[0].pkt.rel)
    && (job.pc in {HostSpec.FillDest, HostSpec.Spawn} ==> g.packetAck.Some?)
    && (job.pc.Spawn? ==> g.destAddrAck.Some?)
  }

  ghost predicate UdpOk(log: Log, g: HostSpec.Globals, udp: HostSpec.Udp) {
    match udp
    case Waiting => true
    case Testing(m) => Sent(m) in log && m.dst == Server
    case Comparing(m) => Sent(m) in log && m.dst == Server
    case Marking(m) => Sent(m) in log && m.dst == Server
    case Dispatching(m) => Sent(m) in log && m.dst == Server
    case Working(job) => JobOk(log, g, job)
  }

  ghost predicate MenuOk(log: Log, g: HostSpec.Globals, menu: HostSpec.Menu) {
    match menu
    case Prompt => true
    case Scanning(p, i, job) => Chosen(log, p) && JobOk(log, g, job)
  }

  /** Every entry of the table belongs to an address that asked for that topic. */
  ghost predicate TableOk(log: Log, t: Table) {
    forall i :: 0 <= i < |t| && t[i].Some? ==> SlotOk(log, t[i].value)
  }

  ghost predicate SlotOk(log: Log, topic: Topic) {
    SingleSubscriber(topic) && SubscribedTo(log, topic.name, topic.ips[0].value)
  }

  ghost predicate HostOk(cfg: Config, log: Log, h: HostSpec.Host) {
    && GlobalsOk(log, h.g)
    && UdpOk(log, h.g, h.udp)
    && MenuOk(log, h.g, h.menu)
    && TableOk(log, h.topics)
    && h.topics == TableAfter(Requests(log), cfg.serverTopics)
  }

  ghost predicate Inv(cfg: Config, s: Sys) {
    && Causal(cfg, s.log)
    && |s.motes| == |cfg.kinds|
    && (forall id :: 0 <= id < |s.motes| ==> MoteOk(cfg, s.log, id, s.motes[id]))
    && HostOk(cfg, s.log, s.host)
  }

  // ---------- What is true of a log stays true of a longer one

  lemma {:induction false} AckOkGrows(cfg: Config, log: Log, log': Log, id: nat, a: MoteSpec.Ack)
    requires id < |cfg.kinds| && AckOk(cfg, log, id, a) && Extends(log, log')
    ensures AckOk(cfg, log', id, a)
  {
    hide MoteMay, HandledType;
    if a.slot.Some? {
      MoteMayGrows(cfg, log, log', id, a.slot.value.pkt);
      if a.rcv { HandledTypeGrows(log, log', Mote(id), a.slot.value.pkt.mst); }
    }
  }

  lemma {:induction false} PushedOkGrows(log: Log, log': Log, id: nat, pushed: Option<string>)
    requires PushedOk(log, id, pushed) && Extends(log, log')
    ensures PushedOk(log', id, pushed)
  {
    if pushed.Some? { assert PushRead(log', id, pushed.value); }
  }

  lemma {:induction false} MoteOkGrows(cfg: Config, log: Log, log': Log, id: nat, s: MoteSpec.State)
    requires id < |cfg.kinds| && MoteOk(cfg, log, id, s)
    requires Extends(log, log') && Publishes(log', id) == Publishes(log, id)
    ensures MoteOk(cfg, log', id, s)
  {
    hide AckOk, PushedOk;
    AckOkGrows(cfg, log, log', id, s.ack);
    PushedOkGrows(log, log', id, s.pushed);
  }

  lemma {:induction false} GlobalsOkGrows(log: Log, log': Log, g: HostSpec.Globals)
    requires GlobalsOk(log, g) && Extends(log, log')
    ensures GlobalsOk(log', g)
  {
    if g.packetAck.Some? { assert PacketGiven(log', g.packetAck.value); }
    if g.destAddrAck.Some? { assert DestGiven(log', g.destAddrAck.value); }
    forall k | 0 <= k < |g.reading| ensures HalfOk(log', g.reading[k]) {
      assert HalfOk(log, g.reading[k]);
    }
  }

  /** The slot only ever goes from empty to filled. */
  predicate Fills(g: HostSpec.Globals, g': HostSpec.Globals) {
    && (g.packetAck.Some? ==> g'.packetAck.Some?)
    && (g.destAddrAck.Some? ==> g'.destAddrAck.Some?)
  }

  lemma {:induction false} JobOkGrows(log: Log, log': Log, g: HostSpec.Globals, g': HostSpec.Globals, job: HostSpec.Job)
    requires JobOk(log, g, job) && Extends(log, log') && Fills(g, g')
    ensures JobOk(log', g', job)
  {
    hide HostMay;
    forall k | 0 <= k < |job.todo| ensures HostMay(log', job.todo[k].pkt, job.todo[k].dst) {
      HostMayGrows(log, log', job.todo[k].pkt, job.todo[k].dst);
    }
  }

  lemma {:induction false} UdpOkGrows(log: Log, log': Log, g: HostSpec.Globals, g': HostSpec.Globals, udp: HostSpec.Udp)
    requires UdpOk(log, g, udp) && Extends(log, log') && Fills(g, g')
    ensures UdpOk(log', g', udp)
  {
    hide JobOk;
    if udp.Working? { JobOkGrows(log, log', g, g', udp.job); }
  }

  lemma {:induction false} MenuOkGrows(
    log: Log, log': Log, g: HostSpec.Globals, g': HostSpec.Globals, menu: HostSpec.Menu)
    requires MenuOk(log, g, menu) && Extends(log, log') && Fills(g, g')
    ensures MenuOk(log', g', menu)
  {
    hide JobOk;
    if menu.Scanning? { JobOkGrows(log, log', g, g', menu.job); }
  }

  lemma {:induction false} TableOkGrows(log: Log, log': Log, t: Table)
    requires TableOk(log, t) && Extends(log, log')
    ensures TableOk(log', t)
  {
    forall i | 0 <= i < |t| && t[i].Some? ensures SlotOk(log', t[i].value) {
      assert SlotOk(log, t[i].value);
    }
  }

  lemma {:induction false} HostOkGrows(cfg: Config, log: Log, log': Log, h: HostSpec.Host)
    requires HostOk(cfg, log, h) && Extends(log, log') && Requests(log') == Requests(log)
    ensures HostOk(cfg, log', h)
  {
    hide GlobalsOk, UdpOk, MenuOk, TableOk, TableAfter, Requests;
    GlobalsOkGrows(log, log', h.g);
    UdpOkGrows(log, log', h.g, h.g, h.udp);
    MenuOkGrows(log, log', h.g, h.g, h.menu);
    TableOkGrows(log, log', h.topics);
  }

  lemma {:induction false} MotesGrow(cfg: Config, s: Sys, log': Log)
    requires Inv(cfg, s) && Extends(s.log, log')
    requires forall id :: 0 <= id < |s.motes| ==> Publishes(log', id) == Publishes(s.log, id)
    ensures forall id :: 0 <= id < |s.motes| ==> MoteOk(cfg, log', id, s.motes[id])
  {
    hide MoteOk, Causal, HostOk;
    forall id | 0 <= id < |s.motes| ensures MoteOk(cfg, log', id, s.motes[id]) {
      MoteOkGrows(cfg, s.log, log', id, s.motes[id]);
    }
  }

  // ---------- Steps of a sensor node

  /** Events that are neither a publication nor a packet handled by the server. */
  ghost predicate Plain(es: Log) {
    forall k :: 0 <= k < |es| ==>
      !es[k].GasPublished? && !(es[k].Handled? && es[k].m.dst == Server)
  }

  lemma {:induction false} PlainCounts(log: Log, es: Log, id: nat)
    requires Plain(es)
    ensures Publishes(log + es, id) == Publishes(log, id) && Requests(log + es) == Requests(log)
  {
    if es == [] {
      assert log + es == log;
    } else {
      var init := es[..|es| - 1];
      assert Plain(init);
      PlainCounts(log, init, id);
      assert (log + es)[..|log + es| - 1] == log + init;
    }
  }

  lemma {:induction false} CausalAppend(cfg: Config, log: Log, es: Log)
    requires Causal(cfg, log)
    requires forall k :: 0 <= k < |es| ==> Caused(cfg, log, es[k]) && !es[k].GasPublished?
    ensures Causal(cfg, log + es)
  {
    hide Caused, Causal;
    if es == [] {
      assert log + es == log;
    } else {
      var init, e := es[..|es| - 1], es[|es| - 1];
      CausalAppend(cfg, log, init);
      CausedGrows(cfg, log, log + init, e);
      CausalSnoc(cfg, log + init, e);
      assert log + es == log + init + [e];
    }
  }

  /** The log after a node's step: its own event first, then its packets and reports. */
  lemma {:induction false} MoteStepCausal(cfg: Config, log: Log, id: nat, before: Log, out: seq<Send>, after: Log)
    requires id < |cfg.kinds| && Causal(cfg, log)
    requires |before| <= 1 && (before != [] ==> Caused(cfg, log, before[0]))
    requires forall k :: 0 <= k < |out| ==> out[k].dst == Server && MoteMay(cfg, log + before, id, out[k].pkt)
    requires forall k :: 0 <= k < |after| ==> Caused(cfg, log + before, after[k]) && !after[k].GasPublished?
    ensures Causal(cfg, log + before + SentBy(Mote(id), out) + after)
  {
    hide MoteMay, Causal;
    var log1 := log + before;
    assert Causal(cfg, log1) by {
      if before == [] {
        assert log1 == log;
      } else {
        CausalSnoc(cfg, log, before[0]);
        assert before == [before[0]];
      }
    }
    var es := SentBy(Mote(id), out) + after;
    CausalAppend(cfg, log1, es);
    assert log1 + es == log + before + SentBy(Mote(id), out) + after;
  }

  lemma {:induction false} SentByIsPlain(src: Addr, out: seq<Send>)
    ensures Plain(SentBy(src, out))
  {
  }

  /** Putting a node's step together: what remains is to show the node itself in order. */
  lemma {:induction false} MoteStepKeeps(cfg: Config, s: Sys, id: nat, before: Log, r: MoteSpec.Result, after: Log)
    requires Inv(cfg, s) && id < |s.motes|
    requires |before| <= 1 && (before != [] ==> Caused(cfg, s.log, before[0]))
    requires Plain(before) || (before[0].GasPublished? && before[0].id == id)
    requires forall k :: 0 <= k < |r.out| ==>
      r.out[k].dst == Server && MoteMay(cfg, s.log + before, id, r.out[k].pkt)
    requires Plain(after) && forall k :: 0 <= k < |after| ==> Caused(cfg, s.log + before, after[k])
    requires MoteOk(cfg, s.log + before, id, r.state)
    ensures Inv(cfg, MoteStep(s, id, before, r, after))
  {
    hide MoteMay, Caused, Causal, MoteOk, HostOk, Publishes, Requests;
    var log1 := s.log + before;
    var es := SentBy(Mote(id), r.out) + after;
    var s' := MoteStep(s, id, before, r, after);
    assert s'.log == log1 + es;
    MoteStepCausal(cfg, s.log, id, before, r.out, after);
    SentByIsPlain(Mote(id), r.out);
    forall other | 0 <= other < |s.motes| ensures MoteOk(cfg, s'.log, other, s'.motes[other]) {
      PlainCounts(log1, es, other);
      if other == id {
        MoteOkGrows(cfg, log1, s'.log, id, r.state);
      } else {
        OtherPublishes(s.log, before, id, other);
        MoteOkGrows(cfg, s.log, s'.log, other, s.motes[other]);
      }
    }
    PlainCounts(log1, es, id);
    OtherPublishes(s.log, before, id, id + 1);
    HostOkGrows(cfg, s.log, s'.log, s.host);
  }

  lemma {:induction false} OtherPublishes(log: Log, before: Log, id: nat, other: nat)
    requires |before| <= 1 && other != id
    requires Plain(before) || (before[0].GasPublished? && before[0].id == id)
    ensures Publishes(log + before, other) == Publishes(log, other) && Requests(log + before) == Requests(log)
  {
    if before == [] {
      assert log + before == log;
    } else {
      assert (log + before)[..|log|] == log;
    }
  }
}
