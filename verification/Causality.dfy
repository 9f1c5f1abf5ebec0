/** What must have happened before each event of the log, and the invariant that every
    schedule keeps: no node acts on its own. */
module Causality {
  import opened Packets
  import opened Numerals
  import opened Topics
  import opened Network
  import MoteSpec

  // ---------- Facts that, once true of a log, stay true

  /** The server handled a packet of this type from this address. */
  ghost predicate HandledType(log: Log, a: Addr, mst: nat) {
    exists q: Packet :: q.mst == mst && Handled(Msg(a, Server, q)) in log
  }

  ghost predicate SubscribedTo(log: Log, topic: string, a: Addr) {
    Handled(Msg(a, Server, Subscribe(topic))) in log
  }

  /** The operator chose the command that is published with this packet. */
  ghost predicate Chosen(log: Log, q: Packet) {
    exists c: Command :: MenuChose(c) in log && q == CommandPacket(c)
  }

  /** A packet to publish reached the server, from the menu or from the network. */
  ghost predicate PublishSeen(log: Log, q: Packet) {
    Chosen(log, q) || exists id: nat :: q.mst == PUBLISH && Handled(Msg(Mote(id), Server, q)) in log
  }

  /** p relays a published packet: same topic, its payload behind two more blanks. */
  ghost predicate PushOf(log: Log, p: Packet) {
    exists q: Packet :: PublishSeen(log, q) && p == Push(q)
  }

  /** The node handled a push carrying this text. */
  ghost predicate PushRead(log: Log, id: nat, text: string) {
    exists q: Packet :: q.mst == PUSH && q.payload == text && Handled(Msg(Server, Mote(id), q)) in log
  }

  ghost predicate PushHandled(log: Log, id: nat) {
    exists text :: PushRead(log, id, text)
  }

  ghost predicate Connected(log: Log, id: nat) {
    Handled(Msg(Server, Mote(id), ConnAck())) in log
  }

  /** How many values a gas sensor published; how its counter stands after k of them. */
  function Publishes(log: Log, id: nat): nat {
    if log == [] then 0
    else
      var last := log[|log| - 1];
      Publishes(log[..|log| - 1], id) + if last.GasPublished? && last.id == id then 1 else 0
  }

  function GasAfter(k: nat): nat {
    if k == 0 then 0 else (k - 1) % 13 + 1
  }

  /** The SUBSCRIBE packets the server handled, in order. */
  function Requests(log: Log): seq<Request> {
    if log == [] then []
    else
      var last := log[|log| - 1];
      Requests(log[..|log| - 1]) +
      if last.Handled? && last.m.dst == Server && last.m.pkt.mst == SUBSCRIBE
      then [Request(last.m.pkt.option, last.m.src)] else []
  }

  // ---------- What each node may send

  ghost predicate GasValueSent(log: Log, id: nat, p: Packet) {
    exists v: nat :: GasPublished(id, v) in log && p == Publish("GAS", Dec(v))
  }

  /** What sensor node id may send: HELLO, SUBSCRIBE for its own topic, PINGREQ and
      DISCONNECT at any time, the rest only with its cause in the log. */
  ghost predicate MoteMay(cfg: Config, log: Log, id: nat, p: Packet)
    requires id < |cfg.kinds|
  {
    || p == HelloInit()
    || (cfg.kinds[id] != MoteSpec.Gas && p == Subscribe(MoteSpec.TopicOf(cfg.kinds[id])))
    || p == PingReq()
    || p == Disconnect()
    || (p == Connect() && Handled(Msg(Server, Mote(id), HelloResponse())) in log)
    || (p == PushAck() && PushHandled(log, id))
    || (cfg.kinds[id] == MoteSpec.Gas && GasValueSent(log, id, p))
  }

  /** What the server may pass to `sendPacket`. */
  ghost predicate HostMay(log: Log, p: Packet, dst: Addr) {
    || (p == HelloResponse() && HandledType(log, dst, HELLO))
    || (p == ConnAck() && HandledType(log, dst, CONNECT))
    || (p == SubAck() && HandledType(log, dst, SUBSCRIBE))
    || (p == PubAck() && HandledType(log, dst, PUBLISH))
    || (p == PingResp() && HandledType(log, dst, PINGREQ))
    || (PushOf(log, p) && SubscribedTo(log, p.option, dst))
  }

  ghost predicate PacketGiven(log: Log, p: Packet) {
    p.mst == PUSH && exists d: Addr :: Given(Msg(Server, d, p)) in log
  }

  ghost predicate DestGiven(log: Log, d: Addr) {
    exists q: Packet :: q.mst == PUSH && Given(Msg(Server, d, q)) in log
  }

  /** A packet leaves the server directly from `sendPacket`, or from an ack thread, which
      may combine the packet of one push with the destination of another. */
  ghost predicate HostSent(log: Log, m: Msg) {
    Given(m) in log || (m.src == Server && PacketGiven(log, m.pkt) && DestGiven(log, m.dst))
  }

  ghost predicate Caused(cfg: Config, log: Log, e: Event) {
    match e
    case Sent(m) =>
      (match m.src
       case Server => HostSent(log, m)
       case Mote(id) => id < |cfg.kinds| && m.dst == Server && MoteMay(cfg, log, id, m.pkt))
    case Handled(m) => Sent(m) in log
    case Given(m) => m.src == Server && HostMay(log, m.pkt, m.dst)
    case MenuChose(c) => true
    case GasPublished(id, v) =>
      id < |cfg.kinds| && cfg.kinds[id] == MoteSpec.Gas && v == GasAfter(Publishes(log, id) + 1) && Connected(log, id)
    case AlarmRaised(id, v) =>
      id < |cfg.kinds| && cfg.kinds[id] == MoteSpec.Alarm && v >= 10 &&
      exists text :: PushRead(log, id, text) && v == Atoi(text)
    case LightSwitched(id) => false
  }

  /** Every event has its cause among the events before it. */
  ghost predicate Causal(cfg: Config, log: Log) {
    log == [] ||
    (Causal(cfg, log[..|log| - 1]) && Caused(cfg, log[..|log| - 1], log[|log| - 1]))
  }

  // ---------- Growing logs

  ghost predicate Extends(log: Log, log': Log) {
    forall e :: e in log ==> e in log'
  }

  lemma {:induction false} MoteMayGrows(cfg: Config, log: Log, log': Log, id: nat, p: Packet)
    requires id < |cfg.kinds| && MoteMay(cfg, log, id, p) && Extends(log, log')
    ensures MoteMay(cfg, log', id, p)
  {
    hide HelloInit, PingReq, Disconnect, Connect, PushAck, Subscribe, Publish, HelloResponse, MoteSpec.TopicOf;
    if PushHandled(log, id) {
      var text :| PushRead(log, id, text);
      assert PushRead(log', id, text);
    }
    if GasValueSent(log, id, p) {
      var v: nat :| GasPublished(id, v) in log && p == Publish("GAS", Dec(v));
      assert GasPublished(id, v) in log';
    }
  }

  lemma {:induction false} HandledTypeGrows(log: Log, log': Log, a: Addr, mst: nat)
    requires HandledType(log, a, mst) && Extends(log, log')
    ensures HandledType(log', a, mst)
  {
    var q: Packet :| q.mst == mst && Handled(Msg(a, Server, q)) in log;
    assert Handled(Msg(a, Server, q)) in log';
  }

  lemma {:induction false} PushOfGrows(log: Log, log': Log, p: Packet)
    requires PushOf(log, p) && Extends(log, log')
    ensures PushOf(log', p)
  {
    var q: Packet :| PublishSeen(log, q) && p == Push(q);
    assert PublishSeen(log', q);
  }

  lemma {:induction false} HostMayGrows(log: Log, log': Log, p: Packet, dst: Addr)
    requires HostMay(log, p, dst) && Extends(log, log')
    ensures HostMay(log', p, dst)
  {
    hide HandledType, PushOf, HelloResponse, ConnAck, SubAck, PubAck, PingResp, Subscribe;
    if PushOf(log, p) { PushOfGrows(log, log', p); }
    forall mst | HandledType(log, dst, mst) ensures HandledType(log', dst, mst) {
      HandledTypeGrows(log, log', dst, mst);
    }
  }

  lemma {:induction false} CausedGrows(cfg: Config, log: Log, log': Log, e: Event)
    requires Caused(cfg, log, e) && Extends(log, log') && !e.GasPublished?
    ensures Caused(cfg, log', e)
  {
    hide MoteMay, HostMay, CommandPacket;
    match e
    case Sent(m) =>
      if m.src.Mote? { MoteMayGrows(cfg, log, log', m.src.id, m.pkt); }
    case Given(m) => HostMayGrows(log, log', m.pkt, m.dst);
    case AlarmRaised(id, v) =>
      var text :| PushRead(log, id, text) && v == Atoi(text);
      assert PushRead(log', id, text);
    case Handled(m) =>
    case MenuChose(c) =>
    case LightSwitched(id) =>
  }

  lemma {:induction false} CausalSnoc(cfg: Config, log: Log, e: Event)
    requires Causal(cfg, log) && Caused(cfg, log, e)
    ensures Causal(cfg, log + [e])
  {
    hide Caused;
    assert (log + [e])[..|log|] == log;
  }

  lemma {:induction false} CauseAt(cfg: Config, log: Log, i: nat)
    requires Causal(cfg, log) && i < |log|
    ensures Causal(cfg, log[..i]) && Caused(cfg, log[..i], log[i])
  {
    hide Caused;
    var before := log[..|log| - 1];
    if i < |before| {
      assert before[..i] == log[..i];
      CauseAt(cfg, before, i);
    }
  }

  lemma {:induction false} CauseOf(cfg: Config, log: Log, e: Event)
    requires Causal(cfg, log) && e in log && !e.GasPublished?
    ensures Caused(cfg, log, e)
  {
    hide Caused;
    var i: nat :| i < |log| && log[i] == e;
    CauseAt(cfg, log, i);
    CausedGrows(cfg, log[..i], log, e);
  }

  lemma {:induction false} PublishesConcat(a: Log, b: Log, id: nat)
    ensures Publishes(a + b, id) == Publishes(a, id) + Publishes(b, id)
  {
    if b == [] {
      assert a + b == a;
    } else {
      assert (a + b)[..|a + b| - 1] == a + b[..|b| - 1];
      PublishesConcat(a, b[..|b| - 1], id);
    }
  }

  lemma {:induction false} RequestsConcat(a: Log, b: Log)
    ensures Requests(a + b) == Requests(a) + Requests(b)
  {
    if b == [] {
      assert a + b == a;
    } else {
      assert (a + b)[..|a + b| - 1] == a + b[..|b| - 1];
      RequestsConcat(a, b[..|b| - 1]);
    }
  }
}
