/** Every packet that is ever sent, written out: type, reliability, option and payload, with
    the numbers of structure.h. */
module Wire {
  import opened Packets
  import opened Numerals
  import opened Network
  import opened Causality
  import opened HostSteps
  import opened Guarantees
  import opened Delivery
  import opened Served
  import opened Commands
  import MoteSpec

  /** What a node may send, by its program. */
  ghost predicate NodePacket(kind: MoteSpec.Kind, p: Packet) {
    || p == Packet(0, false, "init", "  123456789100000000")
    || p == Packet(6, true, "CONNECT", "  testpayload")
    || p == Packet(5, false, "DISCONNECT", "  testpayload")
    || p == Packet(10, false, "PINGREQ", "  testPayload")
    || p == Packet(13, false, "", "  ")
    || match kind
       case Alarm => p == Packet(3, true, "GAS", "  ")
       case Light => p == Packet(3, true, "Light", "  ")
       case Washer => p == Packet(3, true, "WAMA/command", "  ")
       case Gas => exists v: nat :: 1 <= v <= 13 && p == Packet(1, true, "GAS", "  " + Dec(v))
  }

  /** What the server may send. */
  ghost predicate ServerPacket(p: Packet) {
    || p == Packet(0, false, "response", "  testpayload")
    || p == Packet(7, false, "CONNACK", "  testpayload")
    || p == Packet(4, false, "", "  ")
    || p == Packet(2, false, "", "  ")
    || p == Packet(11, false, "PINGRESP", "  pingRespTestPayload")
    || p == Packet(12, true, "Light", "    ON")
    || p == Packet(12, true, "Light", "    OFF")
    || exists v: nat :: 1 <= v <= 13 && p == Packet(12, true, "GAS", "    " + Dec(v))
  }

  lemma {:induction false} Blanks()
    ensures forall text: string :: "  " + ("  " + text) == "    " + text
    ensures "  " + "" == "  "
    ensures "  " + "123456789100000000" == "  123456789100000000"
    ensures "  " + "testpayload" == "  testpayload" && "  " + "testPayload" == "  testPayload"
    ensures "  " + "pingRespTestPayload" == "  pingRespTestPayload"
  {
  }

  /** A published value is between 1 and 13. */
  lemma {:induction false} ValueInFull(cfg: Config, log: Log, id: nat, p: Packet) returns (v: nat)
    requires Causal(cfg, log) && GasValueSent(log, id, p)
    ensures 1 <= v <= 13 && p == Publish("GAS", Dec(v))
  {
    hide Causal, Publishes;
    v :| GasPublished(id, v) in log && p == Publish("GAS", Dec(v));
    var i :| 0 <= i < |log| && log[i] == GasPublished(id, v);
    CauseAt(cfg, log, i);
  }

  lemma {:induction false} NodePacketInFull(cfg: Config, log: Log, id: nat, p: Packet)
    requires Causal(cfg, log) && id < |cfg.kinds| && MoteMay(cfg, log, id, p)
    ensures NodePacket(cfg.kinds[id], p)
  {
    hide Causal, GasValueSent, PushHandled, Dec;
    Blanks();
    if cfg.kinds[id] == MoteSpec.Gas && GasValueSent(log, id, p) {
      var v := ValueInFull(cfg, log, id, p);
      assert p == Packet(1, true, "GAS", "  " + Dec(v));
    }
  }

  lemma {:induction false} PushInFull(cfg: Config, log: Log, p: Packet, a: Addr)
    requires Causal(cfg, log) && PushOf(log, p) && SubscribedTo(log, p.option, a)
    ensures ServerPacket(p)
  {
    hide Causal, SubscribedTo, Dec, CommandPacket, Chosen, MoteSpec.TopicOf, MoteMay;
    Blanks();
    SubscribersKind(cfg, log, p.option, a);
    TopicsOfKinds(cfg.kinds[a.id]);
    var q: Packet :| PublishSeen(log, q) && p == Push(q);
    if Chosen(log, q) {
      var c := CommandOf(log, q);
      PushOfCommand(c);
    } else {
      var id: nat :| q.mst == PUBLISH && Handled(Msg(Mote(id), Server, q)) in log;
      CauseOf(cfg, log, Handled(Msg(Mote(id), Server, q)));
      FromMote(cfg, log, Msg(Mote(id), Server, q));
      MoteTypeShapes(cfg, log, id, q);
      var v := ValueInFull(cfg, log, id, q);
      assert p == Packet(12, true, "GAS", "    " + Dec(v));
    }
  }

  lemma {:induction false} CommandOf(log: Log, q: Packet) returns (c: Command)
    requires Chosen(log, q)
    ensures q == CommandPacket(c)
  {
    c :| MenuChose(c) in log && q == CommandPacket(c);
  }

  lemma {:induction false} ServerPacketInFull(cfg: Config, log: Log, p: Packet, a: Addr)
    requires Causal(cfg, log) && HostMay(log, p, a)
    ensures ServerPacket(p)
  {
    hide Causal, HandledType, PushOf, SubscribedTo;
    Blanks();
    if PushOf(log, p) && SubscribedTo(log, p.option, a) { PushInFull(cfg, log, p, a); }
  }

  /** In every run every packet sent by a node is one of those its program sends, and every
      packet sent by the server one of eight kinds. In particular a washer asks for
      "WAMA/command" and nothing else, and the only commands ever sent are the light's. */
  lemma {:induction false} EveryPacketInFull(cfg: Config, steps: seq<Step>, m: Msg)
    requires Sent(m) in Exec(cfg, steps).log
    ensures match m.src
      case Server => ServerPacket(m.pkt)
      case Mote(id) => id < |cfg.kinds| && m.dst == Server && NodePacket(cfg.kinds[id], m.pkt)
  {
    hide Exec, Causal, MoteMay, HostMay, ServerPacket, NodePacket;
    Reachable(cfg, steps);
    var log := Exec(cfg, steps).log;
    CauseOf(cfg, log, Sent(m));
    match m.src
    case Mote(id) => NodePacketInFull(cfg, log, id, m.pkt);
    case Server =>
      var given := m;
      if Given(m) !in log {
        var d: Addr :| Given(Msg(Server, d, m.pkt)) in log;
        given := Msg(Server, d, m.pkt);
      }
      CauseOf(cfg, log, Given(given));
      ServerPacketInFull(cfg, log, m.pkt, given.dst);
  }
}
