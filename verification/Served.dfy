/** Which pushes the server passes to `sendPacket`, in every run: all of them go to the one
    address the table holds for their topic, and those that serve PUBLISH packets are
    exactly the ones the history of SUBSCRIBE packets entitles, in order. */
module Served {
  import opened Packets
  import opened Topics
  import opened Network
  import opened Causality
  import opened Invariant
  import opened HostSteps
  import opened Guarantees
  import HostSpec
  import MoteSpec

  // ---------- The table and the pushes

  /** The table holds this address, and no other, for this topic. */
  predicate Serves(t: Table, name: string, a: Addr) {
    Find(t, name) < |t| && t[Find(t, name)].value.ips == [Some(a), None]
  }

  predicate SendServed(t: Table, send: Send) {
    send.pkt.mst == PUSH ==> Serves(t, send.pkt.option, send.dst)
  }

  predicate AllServed(t: Table, sends: seq<Send>) {
    forall k :: 0 <= k < |sends| ==> SendServed(t, sends[k])
  }

  lemma {:induction false} ServesGrows(t: Table, name: string, from: Addr, other: string, a: Addr)
    requires WellFormed(t) && Serves(t, other, a)
    ensures Serves(Register(t, name, from), other, a)
  {
    FindAfterRegister(t, name, from, other);
    RegisterKeepsWellFormed(t, name, from);
  }

  lemma {:induction false} ScanIsServed(t: Table, scanned: Table, p: Packet)
    requires WellFormed(t) && scanned <= t
    ensures AllServed(t, Pushes(scanned, p))
  {
    ScanReaches(t, scanned, p);
    assert Push(p).option == p.option;
  }

  lemma {:induction false} SlotIsServed(t: Table, i: nat, p: Packet)
    requires WellFormed(t) && i < |t|
    ensures AllServed(t, SlotPushes(t[i], p)) && |SlotPushes(t[i], p)| <= 1
    ensures forall k :: 0 <= k < |SlotPushes(t[i], p)| ==> SlotPushes(t[i], p)[k].pkt == Push(p)
    ensures SlotPushes(t[i], p) != [] ==> Find(t, p.option) == i
  {
    if t[i].Some? && t[i].value.name == p.option {
      assert IsAt(t, i, p.option);
      assert Find(t, p.option) == i;
      EntryPushesOfPair(t[i].value.ips, p);
      assert Push(p).option == p.option;
    }
  }

  lemma {:induction false} RepliesAreServed(t: Table, p: Packet, src: Addr)
    requires WellFormed(t)
    ensures AllServed(t, HostSpec.Replies(t, p, src))
  {
    hide Serves, WellFormed, Pushes;
    ScanIsServed(t, PublishSlots(t), p);
  }

  // ---------- Who asked for which topic

  /** Who asked for a topic has a program that asks for it. */
  lemma {:induction false} SubscribersKind(cfg: Config, log: Log, topic: string, a: Addr)
    requires Causal(cfg, log) && SubscribedTo(log, topic, a)
    ensures a.Mote? && a.id < |cfg.kinds| && cfg.kinds[a.id] != MoteSpec.Gas
    ensures topic == MoteSpec.TopicOf(cfg.kinds[a.id])
  {
    hide Causal, MoteMay, MoteSpec.TopicOf;
    CauseOf(cfg, log, Handled(Msg(a, Server, Subscribe(topic))));
    FromMote(cfg, log, Msg(a, Server, Subscribe(topic)));
    SubscribeIsOwn(cfg, log, a.id, Subscribe(topic));
    assert Subscribe(topic).option == topic;
  }

  lemma {:induction false} SubscribeIsOwn(cfg: Config, log: Log, id: nat, p: Packet)
    requires id < |cfg.kinds| && MoteMay(cfg, log, id, p) && p.mst == SUBSCRIBE
    ensures cfg.kinds[id] != MoteSpec.Gas && p.option == MoteSpec.TopicOf(cfg.kinds[id])
  {
    hide GasValueSent, PushHandled, MoteSpec.TopicOf;
    if GasValueSent(log, id, p) { GasValueIsPublish(log, id, p); }
  }

  lemma {:induction false} TopicsOfKinds(kind: MoteSpec.Kind)
    ensures MoteSpec.TopicOf(kind) == "Light" <==> kind == MoteSpec.Light
    ensures MoteSpec.TopicOf(kind) == "GAS" <==> kind == MoteSpec.Alarm
    ensures MoteSpec.TopicOf(kind) != "Washer"
  {
    assert "Light"[0] == 'L' && "GAS"[0] == 'G' && "WAMA/command"[0] == 'W' && "Washer"[1] != "WAMA/command"[1];
  }

  // ---------- The ledger of pushes that serve sensor nodes

  predicate IsGasPush(p: Packet) { p.mst == PUSH && p.option == "GAS" }

  function GasPushes(sends: seq<Send>): seq<Send> {
    if sends == [] then []
    else (if IsGasPush(sends[0].pkt) then [sends[0]] else []) + GasPushes(sends[1..])
  }

  /** The gas pushes given to `sendPacket`, in order. */
  function Pushed(log: Log): seq<Send> {
    if log == [] then []
    else
      var last := log[|log| - 1];
      Pushed(log[..|log| - 1]) +
      if last.Given? && IsGasPush(last.m.pkt) then [Send(last.m.pkt, last.m.dst)] else []
  }

  /** What the documentation's "all subscribers" comes to: the first address that asked for
      the topic, if at most one other topic was asked for before it. */
  function Entitled(reqs: seq<Request>, n: nat, p: Packet): seq<Send> {
    var f, rank := FirstRequest(reqs, p.option), Rank(reqs, p.option);
    if f < |reqs| && rank < 2 && rank < n then [Send(Push(p), reqs[f].from)] else []
  }

  /** What the handled PUBLISH packets entitle to, each by the requests handled before it. */
  function Owed(log: Log, n: nat): seq<Send> {
    if log == [] then []
    else
      var before, last := log[..|log| - 1], log[|log| - 1];
      Owed(before, n) +
      if last.Handled? && last.m.dst == Server && last.m.pkt.mst == PUBLISH
      then Entitled(Requests(before), n, last.m.pkt) else []
  }

  /** The gas pushes the UDP thread has not come to yet. */
  function Pending(udp: HostSpec.Udp): seq<Send> {
    if udp.Working? && udp.job.todo != [] then
      GasPushes(if udp.job.pc.Enter? then udp.job.todo else udp.job.todo[1..])
    else []
  }

  // ---------- The invariant

  ghost predicate GivenServed(log: Log, t: Table) {
    forall m: Msg :: Given(m) in log ==> SendServed(t, Send(m.pkt, m.dst))
  }

  ghost predicate MenuServed(t: Table, menu: HostSpec.Menu) {
    menu.Scanning? ==>
      AllServed(t, menu.job.todo) &&
      forall k :: 0 <= k < |menu.job.todo| ==> menu.job.todo[k].pkt == Push(menu.p)
  }

  ghost predicate UdpServed(t: Table, udp: HostSpec.Udp) {
    udp.Working? ==> AllServed(t, udp.job.todo)
  }

  ghost predicate PushGiven(log: Log) {
    exists m: Msg :: Given(m) in log && m.pkt.mst == PUSH
  }

  ghost predicate ServerInv(cfg: Config, s: Sys) {
    var h := s.host;
    && GivenServed(s.log, h.topics)
    && UdpServed(h.topics, h.udp)
    && MenuServed(h.topics, h.menu)
    && (h.g.ackTypeWanted == PUSHACK ==> PushGiven(s.log))
    && Owed(s.log, cfg.serverTopics) == Pushed(s.log) + Pending(h.udp)
  }

  /** Events that concern neither what is given nor what the server handles. */
  ghost predicate Silent(es: Log) {
    forall k :: 0 <= k < |es| ==> !es[k].Given? && !(es[k].Handled? && es[k].m.dst == Server)
  }

  lemma {:induction false} SilentBooks(log: Log, es: Log, n: nat)
    requires Silent(es)
    ensures Owed(log + es, n) == Owed(log, n) && Pushed(log + es) == Pushed(log)
    ensures forall m: Msg :: Given(m) in log + es ==> Given(m) in log
  {
    hide Owed, Pushed;
    if es == [] {
      assert log + es == log;
    } else {
      var init := es[..|es| - 1];
      assert Silent(init);
      SilentBooks(log, init, n);
      BooksAfter(log + init, es[|es| - 1], n);
      assert log + es == log + init + [es[|es| - 1]];
    }
  }

  lemma {:induction false} BooksAfter(log: Log, e: Event, n: nat)
    ensures Pushed(log + [e]) ==
      Pushed(log) + if e.Given? && IsGasPush(e.m.pkt) then [Send(e.m.pkt, e.m.dst)] else []
    ensures Owed(log + [e], n) ==
      Owed(log, n) + if e.Handled? && e.m.dst == Server && e.m.pkt.mst == PUBLISH
                     then Entitled(Requests(log), n, e.m.pkt) else []
  {
    assert (log + [e])[..|log|] == log;
  }

  // ---------- Steps that leave the server's threads where they are

  predicate IsNodeStep(step: Step) {
    step.MotePeriod? || step.MoteAckTimer? || step.MotePingTimer? || step.MoteReceives?
  }

  /** Events of sensor nodes alone. */
  ghost predicate NodesOnly(es: Log) {
    forall k :: 0 <= k < |es| ==>
      && (es[k].Sent? ==> es[k].m.src.Mote?) && (es[k].Handled? ==> es[k].m.dst.Mote?)
      && !es[k].Given? && !es[k].MenuChose?
  }

  lemma {:induction false} MoteStepEvents(
    s: Sys, id: nat, before: Log, r: MoteSpec.Result, after: Log) returns (es: Log)
    requires id < |s.motes| && NodesOnly(before) && NodesOnly(after)
    ensures MoteStep(s, id, before, r, after).log == s.log + es && NodesOnly(es)
  {
    es := before + SentBy(Mote(id), r.out) + after;
    assert s.log + es == s.log + before + SentBy(Mote(id), r.out) + after;
  }

  /** A node's step leaves the server alone, and so do the events it adds to the log. */
  lemma {:induction false} NodeStepIsSilent(s: Sys, step: Step) returns (es: Log)
    requires IsNodeStep(step)
    ensures Apply(s, step).host == s.host && Apply(s, step).log == s.log + es
    ensures NodesOnly(es) && Silent(es)
  {
    hide MoteSpec.Period, MoteSpec.AckTick, MoteSpec.PingTick, MoteSpec.RxCallback, MoteStep, NodesOnly, Silent;
    es := [];
    assert s.log + [] == s.log && NodesOnly([]) by { ReportsAreNodes(s, 0); }
    match step {
      case MotePeriod(id) =>
        if id < |s.motes| {
          ReportsAreNodes(s, id);
          es := MoteStepEvents(s, id, PeriodEvents(s.motes[id], id), MoteSpec.Period(s.motes[id]), []);
          MoteStepHost(s, id, PeriodEvents(s.motes[id], id), MoteSpec.Period(s.motes[id]), []);
        }
      case MoteAckTimer(id) =>
        if id < |s.motes| {
          es := MoteStepEvents(s, id, [], MoteSpec.AckTick(s.motes[id]), []);
          MoteStepHost(s, id, [], MoteSpec.AckTick(s.motes[id]), []);
        }
      case MotePingTimer(id) =>
        if id < |s.motes| {
          es := MoteStepEvents(s, id, [], MoteSpec.PingTick(s.motes[id]), []);
          MoteStepHost(s, id, [], MoteSpec.PingTick(s.motes[id]), []);
        }
      case MoteReceives(m) =>
        if m.dst.Mote? && m.dst.id < |s.motes| && Sent(m) in s.log {
          var r := MoteSpec.RxCallback(s.motes[m.dst.id], m.pkt, m.src);
          HandlingIsNodes(m, r.state);
          es := MoteStepEvents(s, m.dst.id, [Handled(m)], r, CallbackEvents(r.state, m.dst.id));
          MoteStepHost(s, m.dst.id, [Handled(m)], r, CallbackEvents(r.state, m.dst.id));
        }
    }
    NodesAreSilent(es);
  }

  lemma {:induction false} NodesAreSilent(es: Log)
    requires NodesOnly(es)
    ensures Silent(es)
  {
  }

  lemma {:induction false} ReportsAreNodes(s: Sys, id: nat)
    ensures NodesOnly([])
    ensures id < |s.motes| ==> NodesOnly(PeriodEvents(s.motes[id], id))
  {
  }

  lemma {:induction false} HandlingIsNodes(m: Msg, st: MoteSpec.State)
    requires m.dst.Mote?
    ensures NodesOnly([Handled(m)]) && NodesOnly(CallbackEvents(st, m.dst.id))
  {
  }

  lemma {:induction false} MoteStepHost(s: Sys, id: nat, before: Log, r: MoteSpec.Result, after: Log)
    requires id < |s.motes|
    ensures MoteStep(s, id, before, r, after).host == s.host
  {
  }

  lemma {:induction false} LogGrows(s: Sys, step: Step)
    ensures s.log <= Apply(s, step).log
  {
    hide MoteSpec.Period, MoteSpec.AckTick, MoteSpec.PingTick, MoteSpec.RxCallback, HostSpec.JobStep, HostSpec.Replies,
         HostSpec.TopicsAfter, Completed, CommandPacket, SlotPushes;
  }

  /** What an ack thread sends is a push, and it has what it takes to send it. */
  lemma {:induction false} AckThreadsReady(cfg: Config, s: Sys)
    requires Inv(cfg, s)
    ensures s.host.g.sending > 0 ==> s.host.g.packetAck.Some? && s.host.g.destAddrAck.Some?
    ensures forall k :: 0 <= k < |s.host.g.reading| ==>
      var m := Completed(s.host.g, s.host.g.reading[k]); m.Some? && m.value.pkt.mst == PUSH
  {
    hide Causal, MoteOk, TableOk, TableAfter, Requests, UdpOk, MenuOk, DestGiven;
    var g := s.host.g;
    forall k | 0 <= k < |g.reading| ensures
      var m := Completed(g, g.reading[k]); m.Some? && m.value.pkt.mst == PUSH
    {
      assert HalfOk(s.log, g.reading[k]);
    }
  }

  /** The server's threads stay where they are while the log grows by silent events. */
  lemma {:induction false} SilentKeeps(cfg: Config, s: Sys, s': Sys, es: Log)
    requires ServerInv(cfg, s) && Silent(es) && s'.log == s.log + es
    requires s'.host == s.host.(g := s'.host.g) && s'.host.g.ackTypeWanted == s.host.g.ackTypeWanted
    ensures ServerInv(cfg, s')
  {
    hide Serves, Owed, Pushed, Pending, Silent;
    SilentBooks(s.log, es, cfg.serverTopics);
    if PushGiven(s.log) {
      var m: Msg :| Given(m) in s.log && m.pkt.mst == PUSH;
      assert Given(m) in s'.log;
    }
  }

  /** The same for one silent event. */
  lemma {:induction false} OneSilent(log: Log, e: Event)
    requires !e.Given? && !(e.Handled? && e.m.dst == Server)
    ensures Silent([e])
  {
  }

  // ---------- One statement of a send

  /** The job after the statement still serves, and the ledger moves on by what it gives. */
  lemma {:induction false} JobStepServes(log: Log, t: Table, g: HostSpec.Globals, job: HostSpec.Job, n: nat)
    requires JobOk(log, g, job) && job.todo != [] && AllServed(t, job.todo) && GivenServed(log, t)
    requires g.ackTypeWanted == PUSHACK ==> PushGiven(log)
    ensures
      var r := HostSpec.JobStep(g, job);
      var log' := log + ActEvents(r.act);
      && AllServed(t, r.job.todo) && GivenServed(log', t)
      && (r.g.ackTypeWanted == PUSHACK ==> PushGiven(log'))
      && Owed(log', n) == Owed(log, n)
      && (forall k :: 0 <= k < |r.job.todo| ==> r.job.todo[k] in job.todo)
      && Pushed(log') == Pushed(log) +
           if job.pc.Enter? && IsGasPush(job.todo[0].pkt) then [job.todo[0]] else []
  {
    hide HostMay, SendServed, Owed, Pushed;
    var r := HostSpec.JobStep(g, job);
    var log' := log + ActEvents(r.act);
    var m := Msg(Server, job.todo[0].dst, job.todo[0].pkt);
    if job.pc.Enter? {
      BooksAfter(log, Given(m), n);
      assert SendServed(t, job.todo[0]);
    } else if job.pc.Transmit? {
      BooksAfter(log, Sent(m), n);
    } else {
      assert log' == log;
      if job.pc.SetWanted? { ReliableIsPush(log, m.pkt, m.dst); }
    }
    if PushGiven(log) {
      var m: Msg :| Given(m) in log && m.pkt.mst == PUSH;
      assert Given(m) in log';
    }
  }

  lemma {:induction false} PendingAfter(g: HostSpec.Globals, job: HostSpec.Job)
    requires job.todo != []
    ensures Pending(HostSpec.Working(job)) ==
      (if job.pc.Enter? && IsGasPush(job.todo[0].pkt) then [job.todo[0]] else []) +
      Pending(HostSpec.Working(HostSpec.JobStep(g, job).job))
  {
  }

  // ---------- The threads

  lemma {:induction false} UdpWorkServes(cfg: Config, s: Sys)
    requires Inv(cfg, s) && ServerInv(cfg, s) && s.host.udp.Working? && s.host.udp.job.todo != []
    ensures ServerInv(cfg, UdpRun(s))
  {
    hide Causal, MoteOk, GlobalsOk, MenuOk, TableOk, TableAfter, Requests, JobOk, HostSpec.JobStep, AllServed,
         GivenServed, PushGiven, Owed, Pushed, Pending, IsGasPush, ActEvents;
    JobStepServes(s.log, s.host.topics, s.host.g, s.host.udp.job, cfg.serverTopics);
    PendingAfter(s.host.g, s.host.udp.job);
  }

  lemma {:induction false} UdpDispatchServes(cfg: Config, s: Sys)
    requires Inv(cfg, s) && ServerInv(cfg, s) && s.host.udp.Dispatching?
    ensures ServerInv(cfg, UdpRun(s))
  {
    hide Causal, MoteOk, GlobalsOk, MenuOk, TableOk, TableAfter, Requests, WellFormed, Serves, PushGiven, Owed, Pushed,
         Pending, Register, HostSpec.Replies, MoteMay;
    var m, h, n := s.host.udp.m, s.host, cfg.serverTopics;
    var e := Handled(m);
    var todo := HostSpec.Replies(h.topics, m.pkt, m.src);
    FromMote(cfg, s.log, m);
    TableRefinesHistory(Requests(s.log), n);
    RepliesAreServed(h.topics, m.pkt, m.src);
    forall name, a | Serves(h.topics, name, a) ensures Serves(HostSpec.TopicsAfter(h.topics, m.pkt, m.src), name, a) {
      if m.pkt.mst == SUBSCRIBE { ServesGrows(h.topics, m.pkt.option, m.src, name, a); }
    }
    BooksAfter(s.log, e, n);
    AnswersAreOwed(cfg, s.log, m, n);
    assert PushGiven(s.log) ==> PushGiven(s.log + [e]) by { PushGivenGrows(s.log, e); }
    assert Pending(HostSpec.Working(HostSpec.Job(todo, HostSpec.Enter))) == GasPushes(todo) by { PendingOfFresh(todo); }
    assert Pending(h.udp) == [] by { NothingPending(h.udp); }
  }

  lemma {:induction false} NothingPending(udp: HostSpec.Udp)
    requires !udp.Working?
    ensures Pending(udp) == []
  {
  }

  lemma {:induction false} PendingOfFresh(todo: seq<Send>)
    ensures Pending(HostSpec.Working(HostSpec.Job(todo, HostSpec.Enter))) == GasPushes(todo)
  {
  }

  lemma {:induction false} PushGivenGrows(log: Log, e: Event)
    ensures PushGiven(log) ==> PushGiven(log + [e])
  {
    if PushGiven(log) {
      var m: Msg :| Given(m) in log && m.pkt.mst == PUSH;
      assert Given(m) in log + [e];
    }
  }

  /** The gas pushes among the replies to a packet are what the history entitles it to. */
  lemma {:induction false} AnswersAreOwed(cfg: Config, log: Log, m: Msg, n: nat)
    requires m.src.Mote? && m.src.id < |cfg.kinds| && MoteMay(cfg, log, m.src.id, m.pkt)
    ensures GasPushes(HostSpec.Replies(TableAfter(Requests(log), n), m.pkt, m.src)) ==
      if m.pkt.mst == PUBLISH then Entitled(Requests(log), n, m.pkt) else []
  {
    hide Requests, TableAfter, MoteMay, Pushes, GasValueSent, MoteSpec.TopicOf;
    var t, p := TableAfter(Requests(log), n), m.pkt;
    var todo := HostSpec.Replies(t, p, m.src);
    MoteTypeShapes(cfg, log, m.src.id, p);
    if p.mst == PUBLISH {
      GasValueIsGas(log, m.src.id, p);
      ScanIsEntitled(Requests(log), n, p);
      var pushes := Entitled(Requests(log), n, p);
      assert todo == [Send(PubAck(), m.src)] + pushes;
      assert todo[1..] == pushes;
      assert GasPushes(pushes) == pushes by {
        if pushes != [] {
          assert IsGasPush(pushes[0].pkt) by { assert Push(p).option == p.option; }
          assert pushes[1..] == [];
        }
      }
      assert !IsGasPush(todo[0].pkt);
    } else if todo != [] {
      assert todo[1..] == [];
    }
  }

  lemma {:induction false} GasValueIsGas(log: Log, id: nat, p: Packet)
    requires GasValueSent(log, id, p)
    ensures p.option == "GAS" && p.rel
  {
  }

  lemma {:induction false} ScanIsEntitled(reqs: seq<Request>, n: nat, p: Packet)
    ensures Pushes(PublishSlots(TableAfter(reqs, n)), p) == Entitled(reqs, n, p)
  {
    var t := TableAfter(reqs, n);
    TableRefinesHistory(reqs, n);
    assert SlotIsHistory(t, reqs, p.option);
    ScanReaches(t, PublishSlots(t), p);
  }

  lemma {:induction false} UdpRunServes(cfg: Config, s: Sys)
    requires Inv(cfg, s) && ServerInv(cfg, s)
    ensures ServerInv(cfg, UdpRun(s))
  {
    hide Inv, AllServed, GivenServed, PushGiven, Owed, Pushed, HostSpec.JobStep, HostSpec.Replies;
    if s.host.udp.Dispatching? { UdpDispatchServes(cfg, s); }
    else if s.host.udp.Working? && s.host.udp.job.todo != [] { UdpWorkServes(cfg, s); }
  }

  /** A menu command is not about gas. */
  lemma {:induction false} MenuIsNoGas(cfg: Config, s: Sys, k: nat)
    requires Inv(cfg, s) && MenuServed(s.host.topics, s.host.menu)
    requires s.host.menu.Scanning? && k < |s.host.menu.job.todo|
    ensures s.host.menu.p.option in {"Light", "Washer"}
    ensures !IsGasPush(s.host.menu.job.todo[k].pkt)
  {
    hide Causal, MoteOk, GlobalsOk, UdpOk, TableOk, TableAfter, Requests, JobOk, CommandPacket;
    var c :| MenuChose(c) in s.log && s.host.menu.p == CommandPacket(c);
    CommandShape(c);
    assert Push(s.host.menu.p).option == s.host.menu.p.option;
  }

  lemma {:induction false} MenuWorkServes(cfg: Config, s: Sys)
    requires Inv(cfg, s) && ServerInv(cfg, s) && s.host.menu.Scanning? && s.host.menu.job.todo != []
    ensures ServerInv(cfg, MenuRun(s))
  {
    hide Causal, MoteOk, GlobalsOk, UdpOk, TableOk, TableAfter, Requests, JobOk, HostSpec.JobStep, AllServed,
         GivenServed, PushGiven, Owed, Pushed, Pending, IsGasPush, ActEvents, Push;
    MenuIsNoGas(cfg, s, 0);
    JobStepServes(s.log, s.host.topics, s.host.g, s.host.menu.job, cfg.serverTopics);
  }

  lemma {:induction false} MenuRunServes(cfg: Config, s: Sys)
    requires Inv(cfg, s) && ServerInv(cfg, s)
    ensures ServerInv(cfg, MenuRun(s))
  {
    hide Causal, MoteOk, GlobalsOk, UdpOk, MenuOk, TableOk, TableAfter, Requests, WellFormed, AllServed, GivenServed,
         PushGiven, Owed, Pushed, HostSpec.JobStep, SlotPushes, Push;
    var h := s.host;
    if h.menu.Scanning? {
      if h.menu.job.todo != [] {
        MenuWorkServes(cfg, s);
      } else if h.menu.i < |h.topics| {
        TableRefinesHistory(Requests(s.log), cfg.serverTopics);
        SlotIsServed(h.topics, h.menu.i, h.menu.p);
      }
    }
  }

  lemma {:induction false} OtherServerStepServes(cfg: Config, s: Sys, step: Step)
    requires ServerInv(cfg, s) && !IsNodeStep(step) && step != UdpRuns && step != MenuRuns
    ensures ServerInv(cfg, Apply(s, step))
  {
    hide Owed, Pushed, PushGiven, GivenServed, CommandPacket, Completed;
    var s' := Apply(s, step);
    assert s.log + [] == s.log && Silent([]);
    match step
    case UdpReceives(m) =>
    case MenuChooses(c) =>
      if s.host.menu.Prompt? {
        OneSilent(s.log, MenuChose(c));
        SilentKeeps(cfg, s, s'.(host := s.host), [MenuChose(c)]);
      }
    case AckSends(k) =>
      if s' != s {
        var e := Sent(Completed(s.host.g, s.host.g.reading[k]).value);
        OneSilent(s.log, e);
        SilentKeeps(cfg, s, s', [e]);
      }
    case _ => SilentKeeps(cfg, s, s', []);
  }

  lemma {:induction false} ApplyServes(cfg: Config, s: Sys, step: Step)
    requires Inv(cfg, s) && ServerInv(cfg, s)
    ensures ServerInv(cfg, Apply(s, step))
  {
    hide Inv, ServerInv, UdpRun, MenuRun;
    if step == UdpRuns {
      UdpRunServes(cfg, s);
    } else if step == MenuRuns {
      MenuRunServes(cfg, s);
    } else if IsNodeStep(step) {
      var es := NodeStepIsSilent(s, step);
      SilentKeeps(cfg, s, Apply(s, step), es);
    } else {
      OtherServerStepServes(cfg, s, step);
    }
  }

  lemma {:induction false} ServerReachable(cfg: Config, steps: seq<Step>)
    ensures ServerInv(cfg, Exec(cfg, steps))
  {
    hide Inv, Apply, ServerInv;
    if steps == [] {
      InitServes(cfg);
    } else {
      ServerReachable(cfg, steps[..|steps| - 1]);
      Reachable(cfg, steps[..|steps| - 1]);
      ApplyServes(cfg, Exec(cfg, steps[..|steps| - 1]), steps[|steps| - 1]);
    }
  }

  lemma {:induction false} InitServes(cfg: Config)
    ensures ServerInv(cfg, Init(cfg))
  {
  }

  // ---------- The results

  /** Publish exactness over whole runs. In every reachable state the gas pushes given to
      `sendPacket`, followed by those the UDP thread is still to come to, are exactly what
      the handled PUBLISH packets entitle to: for each one, in order, one push to the first
      address that had asked for the topic if at most one other topic came before, none
      otherwise. Nothing else is ever pushed for a node. */
  lemma {:induction false} ServedExactly(cfg: Config, steps: seq<Step>)
    ensures var s := Exec(cfg, steps);
      && Owed(s.log, cfg.serverTopics) == Pushed(s.log) + Pending(s.host.udp)
      && (!s.host.udp.Working? ==> Pushed(s.log) == Owed(s.log, cfg.serverTopics))
  {
    hide Exec, Owed, Pushed, GivenServed, UdpServed, MenuServed, PushGiven;
    ServerReachable(cfg, steps);
    assert Pushed(Exec(cfg, steps).log) + [] == Pushed(Exec(cfg, steps).log);
  }

  lemma {:induction false} GivenIsPushed(log: Log, m: Msg)
    requires Given(m) in log && IsGasPush(m.pkt)
    ensures Send(m.pkt, m.dst) in Pushed(log)
  {
    var before, last := log[..|log| - 1], log[|log| - 1];
    assert log == before + [last];
    if last != Given(m) { GivenIsPushed(before, m); }
  }

  predicate IsEarly(reqs: seq<Request>, name: string) {
    FirstRequest(reqs, name) < |reqs| && Rank(reqs, name) < 2
  }

  lemma {:induction false} OwedIsEarly(log: Log, n: nat, send: Send)
    requires send in Owed(log, n)
    ensures IsEarly(Requests(log), send.pkt.option)
  {
    hide FirstRequest, Rank;
    var before, last := log[..|log| - 1], log[|log| - 1];
    var reqs := Requests(before);
    if send in Owed(before, n) {
      OwedIsEarly(before, n, send);
    } else {
      assert send.pkt.option == last.m.pkt.option;
    }
    if Requests(log) != reqs { FirstRequestSnoc(reqs, Request(last.m.pkt.option, last.m.src), send.pkt.option); }
  }

  /** Every push ever given, for a node or from the menu, goes to the first address whose
      SUBSCRIBE for its topic was handled: a second subscriber is never sent anything. If it
      serves a node, at most one other topic had been asked for before its own. */
  lemma {:induction false} OnlyFirstSubscriberIsPushed(cfg: Config, steps: seq<Step>, m: Msg)
    requires Given(m) in Exec(cfg, steps).log && m.pkt.mst == PUSH
    ensures var reqs := Requests(Exec(cfg, steps).log);
      var f, rank := FirstRequest(reqs, m.pkt.option), Rank(reqs, m.pkt.option);
      f < |reqs| && reqs[f].from == m.dst && rank < cfg.serverTopics && (IsGasPush(m.pkt) ==> rank < 2)
  {
    hide Exec, Owed, Pushed, Pending, UdpServed, MenuServed, PushGiven, Causal, MoteOk, GlobalsOk, UdpOk, MenuOk,
         TableOk, Requests, TableAfter, WellFormed, FirstRequest, Rank, Find;
    Reachable(cfg, steps);
    ServerReachable(cfg, steps);
    var s := Exec(cfg, steps);
    var reqs, t := Requests(s.log), s.host.topics;
    TableRefinesHistory(reqs, cfg.serverTopics);
    assert SendServed(t, Send(m.pkt, m.dst));
    assert SlotIsHistory(t, reqs, m.pkt.option);
    if IsGasPush(m.pkt) {
      GivenIsPushed(s.log, m);
      OwedIsEarly(s.log, cfg.serverTopics, Send(m.pkt, m.dst));
    }
  }
}
