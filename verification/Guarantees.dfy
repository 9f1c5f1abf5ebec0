/** What the protocol guarantees in every run: any number of nodes, any schedule, a network
    that loses, duplicates and reorders, and the server's threads interleaved at will. */
module Guarantees {
  import opened Packets
  import opened Numerals
  import opened Network
  import opened Causality
  import opened Invariant
  import opened MoteSteps
  import opened HostSteps
  import MoteSpec

  /** The position of a cause, with the cause of the cause still to be looked for before it. */
  lemma {:induction false} CauseIndex(cfg: Config, log: Log, i: nat, e: Event) returns (j: nat)
    requires Causal(cfg, log) && i <= |log| && e in log[..i]
    ensures j < i && log[j] == e && Caused(cfg, log[..j], e)
  {
    hide Causal, Caused;
    j :| 0 <= j < i && log[..i][j] == e;
    CauseAt(cfg, log, j);
  }

  /** Where the server was given a packet, other than a push, that a node handled. */
  lemma {:induction false} WhereGiven(cfg: Config, log: Log, i: nat, id: nat, p: Packet) returns (j: nat)
    requires Causal(cfg, log) && i < |log| && log[i] == Handled(Msg(Server, Mote(id), p)) && p.mst != PUSH
    ensures j < i && log[j] == Given(Msg(Server, Mote(id), p)) && HostMay(log[..j], p, Mote(id))
  {
    hide Causal, MoteMay, HostMay;
    var m := Msg(Server, Mote(id), p);
    CauseAt(cfg, log, i);
    var k := CauseIndex(cfg, log, i, Sent(m));
    j := CauseIndex(cfg, log, k, Given(m));
  }

  /** Where a node sent a packet that the server handled. */
  lemma {:induction false} WhereSent(cfg: Config, log: Log, i: nat, id: nat, p: Packet) returns (j: nat)
    requires Causal(cfg, log) && i < |log| && log[i] == Handled(Msg(Mote(id), Server, p))
    ensures j < i && log[j] == Sent(Msg(Mote(id), Server, p)) && id < |cfg.kinds| && MoteMay(cfg, log[..j], id, p)
  {
    hide Causal, MoteMay, HostMay;
    CauseAt(cfg, log, i);
    j := CauseIndex(cfg, log, i, Sent(Msg(Mote(id), Server, p)));
  }

  lemma {:induction false} IndexOf(log: Log, i: nat, e: Event) returns (j: nat)
    requires i <= |log| && e in log[..i]
    ensures j < i && log[j] == e
  {
    j :| 0 <= j < i && log[..i][j] == e;
  }

  // ---------- The handshake

  lemma {:induction false} WhereHandledType(log: Log, i: nat, a: Addr, mst: nat) returns (j: nat, q: Packet)
    requires i <= |log| && HandledType(log[..i], a, mst)
    ensures j < i && q.mst == mst && log[j] == Handled(Msg(a, Server, q))
  {
    q :| q.mst == mst && Handled(Msg(a, Server, q)) in log[..i];
    j := IndexOf(log, i, Handled(Msg(a, Server, q)));
  }

  lemma {:induction false} MoteTypeShapes(cfg: Config, log: Log, id: nat, p: Packet)
    requires id < |cfg.kinds| && MoteMay(cfg, log, id, p)
    ensures p.mst == HELLO ==> p == HelloInit()
    ensures p.mst == CONNECT ==> p == Connect() && Handled(Msg(Server, Mote(id), HelloResponse())) in log
    ensures p.mst == PUBLISH ==> cfg.kinds[id] == MoteSpec.Gas && GasValueSent(log, id, p)
    ensures p.mst == SUBSCRIBE ==> p == Subscribe(MoteSpec.TopicOf(cfg.kinds[id]))
    ensures p.mst in {HELLO, SUBSCRIBE, PINGREQ, DISCONNECT, CONNECT, PUSHACK, PUBLISH}
  {
    hide GasValueSent, PushHandled, MoteSpec.TopicOf;
    if GasValueSent(log, id, p) { GasValueIsPublish(log, id, p); }
  }

  lemma {:induction false} GasValueIsPublish(log: Log, id: nat, p: Packet)
    requires GasValueSent(log, id, p)
    ensures p.mst == PUBLISH
  {
  }

  lemma {:induction false} HostTypeShapes(log: Log, p: Packet, a: Addr)
    requires HostMay(log, p, a)
    ensures p.mst == HELLO ==> p == HelloResponse() && HandledType(log, a, HELLO)
    ensures p.mst == CONNACK ==> p == ConnAck() && HandledType(log, a, CONNECT)
    ensures p.mst in {HELLO, CONNACK, SUBACK, PUBACK, PINGRESP, PUSH}
  {
    hide HandledType, SubscribedTo;
  }

  /** A connected node went through the whole handshake, in this order: the server handled
      its HELLO, it handled the response, the server handled its CONNECT, it handled the
      CONNACK. */
  lemma {:induction false} HandshakeCausality(cfg: Config, steps: seq<Step>, id: nat)
    returns (a: nat, b: nat, c: nat, d: nat)
    requires id < |cfg.kinds| && id < |Exec(cfg, steps).motes| && Exec(cfg, steps).motes[id].connected
    ensures var log := Exec(cfg, steps).log;
      && a < b < c < d < |log|
      && log[a] == Handled(Msg(Mote(id), Server, HelloInit()))
      && log[b] == Handled(Msg(Server, Mote(id), HelloResponse()))
      && log[c] == Handled(Msg(Mote(id), Server, Connect()))
      && log[d] == Handled(Msg(Server, Mote(id), ConnAck()))
  {
    hide Exec, Causal, MoteMay, HostMay;
    Reachable(cfg, steps);
    var s := Exec(cfg, steps);
    assert MoteOk(cfg, s.log, id, s.motes[id]);
    a, b, c, d := ConnectedChain(cfg, s.log, id);
  }

  lemma {:induction false} ConnectedChain(cfg: Config, log: Log, id: nat) returns (a: nat, b: nat, c: nat, d: nat)
    requires Causal(cfg, log) && Connected(log, id)
    ensures
      && a < b < c < d < |log|
      && log[a] == Handled(Msg(Mote(id), Server, HelloInit()))
      && log[b] == Handled(Msg(Server, Mote(id), HelloResponse()))
      && log[c] == Handled(Msg(Mote(id), Server, Connect()))
      && log[d] == Handled(Msg(Server, Mote(id), ConnAck()))
  {
    hide Causal, MoteMay, HostMay, HandledType;
    assert log[..|log|] == log;
    d := IndexOf(log, |log|, Handled(Msg(Server, Mote(id), ConnAck())));
    var given := WhereGiven(cfg, log, d, id, ConnAck());
    HostTypeShapes(log[..given], ConnAck(), Mote(id));
    var q;
    c, q := WhereHandledType(log, given, Mote(id), CONNECT);
    var sent := WhereSent(cfg, log, c, id, q);
    MoteTypeShapes(cfg, log[..sent], id, q);
    b := IndexOf(log, sent, Handled(Msg(Server, Mote(id), HelloResponse())));
    var given' := WhereGiven(cfg, log, b, id, HelloResponse());
    HostTypeShapes(log[..given'], HelloResponse(), Mote(id));
    a, q := WhereHandledType(log, given', Mote(id), HELLO);
    sent := WhereSent(cfg, log, a, id, q);
    MoteTypeShapes(cfg, log[..sent], id, q);
  }

  /** Who sends what: the server never sends CONNECT, SUBSCRIBE, PUBLISH, PINGREQ or a HELLO
      init; no node sends an acknowledgement of its own role, a HELLO response or a push;
      and nodes talk to the server only. */
  lemma {:induction false} RolesAreKept(cfg: Config, steps: seq<Step>, m: Msg)
    requires Sent(m) in Exec(cfg, steps).log
    ensures m.src == Server ==>
      m.dst.Mote? && m.pkt.mst in {HELLO, CONNACK, SUBACK, PUBACK, PINGRESP, PUSH} &&
      (m.pkt.mst == HELLO ==> m.pkt == HelloResponse())
    ensures m.src.Mote? ==>
      m.dst == Server && m.pkt.mst in {HELLO, SUBSCRIBE, PINGREQ, DISCONNECT, CONNECT, PUSHACK, PUBLISH} &&
      (m.pkt.mst == HELLO ==> m.pkt == HelloInit())
  {
    hide Exec, Causal, MoteMay, HostMay;
    Reachable(cfg, steps);
    var log := Exec(cfg, steps).log;
    CauseOf(cfg, log, Sent(m));
    if m.src.Mote? {
      MoteTypeShapes(cfg, log, m.src.id, m.pkt);
    } else {
      NotToItself(cfg, log);
      if m.dst.Mote? { FromServerTypes(cfg, log, m); }
    }
  }

  lemma {:induction false} FromServerTypes(cfg: Config, log: Log, m: Msg)
    requires Causal(cfg, log) && Sent(m) in log && m.dst.Mote?
    ensures m.pkt.mst in {HELLO, CONNACK, SUBACK, PUBACK, PINGRESP, PUSH}
    ensures m.pkt.mst == HELLO ==> m.pkt == HelloResponse()
  {
    hide Causal, HandledType, PushOf;
    SentToMote(cfg, log, m);
  }

  // ---------- The alarm

  /** Event j is the publication behind the alarm of event i. */
  ghost predicate ExplainsAlarm(log: Log, i: nat, j: nat)
    requires i < |log| && log[i].AlarmRaised?
  {
    && j < i && log[j].GasPublished?
    && log[j].value == log[i].reading >= 10
    && Connected(log[..j], log[j].id)
    && Publishes(log[..j + 1], log[j].id) >= 10
  }

  /** An alarm goes off only on a value that a gas sensor published before: that sensor was
      connected, the value is the one the alarm read, and it was at least its tenth. */
  lemma {:induction false} AlarmCausality(cfg: Config, steps: seq<Step>, i: nat) returns (j: nat)
    requires i < |Exec(cfg, steps).log| && Exec(cfg, steps).log[i].AlarmRaised?
    ensures ExplainsAlarm(Exec(cfg, steps).log, i, j)
  {
    hide Exec, Causal, MoteMay, HostMay, Publishes, PushRead;
    Reachable(cfg, steps);
    var log := Exec(cfg, steps).log;
    CauseAt(cfg, log, i);
    var v := log[i].reading;
    var text :| PushRead(log[..i], log[i].id, text) && v == Atoi(text);
    var k, p := WhereRead(log, i, log[i].id, text);
    var g, q := WherePushed(cfg, log, k, log[i].id, p);
    j := WherePublished(cfg, log, g, q, v);
  }

  lemma {:induction false} WhereRead(log: Log, i: nat, id: nat, text: string) returns (k: nat, p: Packet)
    requires i <= |log| && PushRead(log[..i], id, text)
    ensures k < i && p.mst == PUSH && p.payload == text && log[k] == Handled(Msg(Server, Mote(id), p))
  {
    p :| p.mst == PUSH && p.payload == text && Handled(Msg(Server, Mote(id), p)) in log[..i];
    k := IndexOf(log, i, Handled(Msg(Server, Mote(id), p)));
  }

  /** The published packet behind a push that a node handled, even one resent to the wrong
      node by an ack thread. */
  lemma {:induction false} WherePushed(cfg: Config, log: Log, k: nat, id: nat, p: Packet) returns (g: nat, q: Packet)
    requires Causal(cfg, log) && k < |log| && log[k] == Handled(Msg(Server, Mote(id), p)) && p.mst == PUSH
    ensures g < k && PublishSeen(log[..g], q) && p == Push(q)
  {
    hide Causal, MoteMay, HostMay, PublishSeen;
    CauseAt(cfg, log, k);
    var m := Msg(Server, Mote(id), p);
    var sent := CauseIndex(cfg, log, k, Sent(m));
    var to := Mote(id);
    if Given(m) !in log[..sent] {
      to :| Given(Msg(Server, to, p)) in log[..sent];
    }
    g := CauseIndex(cfg, log, sent, Given(Msg(Server, to, p)));
    PushIsPushOf(log[..g], p, to);
    q :| PublishSeen(log[..g], q) && p == Push(q);
  }

  lemma {:induction false} PushIsPushOf(log: Log, p: Packet, a: Addr)
    requires HostMay(log, p, a) && p.mst == PUSH
    ensures PushOf(log, p) && SubscribedTo(log, p.option, a)
  {
    hide HandledType, SubscribedTo, PushOf;
  }

  lemma {:induction false} CommandReadsZero(p: Packet, c: Command)
    requires p == CommandPacket(c)
    ensures Atoi(Push(p).payload) == 0
  {
    hide CommandPacket;
    CommandShape(c);
    var value :| value in {"ON", "OFF"} && p == Publish(p.option, value);
    PushedValue(value, p.option);
    assert SkipSpaces("ON") == "ON" && SkipSpaces("OFF") == "OFF";
  }

  lemma {:induction false} CommandShape(c: Command)
    ensures exists value :: CommandPacket(c).option in {"Light", "Washer"} && value in {"ON", "OFF"} &&
                            CommandPacket(c) == Publish(CommandPacket(c).option, value)
  {
    var p := CommandPacket(c);
    assert p == Publish("Light", "ON") || p == Publish("Light", "OFF") ||
           p == Publish("Washer", "ON") || p == Publish("Washer", "OFF");
  }

  lemma {:induction false} WherePublished(cfg: Config, log: Log, g: nat, q: Packet, v: int) returns (j: nat)
    requires Causal(cfg, log) && g <= |log| && PublishSeen(log[..g], q)
    requires v == Atoi(Push(q).payload) && v >= 10
    ensures j < g && log[j].GasPublished? && log[j].value == v
    ensures Connected(log[..j], log[j].id) && Publishes(log[..j + 1], log[j].id) >= 10
  {
    hide Causal, MoteMay, HostMay, Publishes, CommandPacket, Push, Publish, Atoi;
    if Chosen(log[..g], q) {
      var c :| MenuChose(c) in log[..g] && q == CommandPacket(c);
      CommandReadsZero(q, c);
      assert false;
    } else {
      var id: nat :| q.mst == PUBLISH && Handled(Msg(Mote(id), Server, q)) in log[..g];
      var h := IndexOf(log, g, Handled(Msg(Mote(id), Server, q)));
      var sent := WhereSent(cfg, log, h, id, q);
      MoteTypeShapes(cfg, log[..sent], id, q);
      var n: nat :| GasPublished(id, n) in log[..sent] && q == Publish("GAS", Dec(n));
      j := IndexOf(log, sent, GasPublished(id, n));
      CauseAt(cfg, log, j);
      assert n == v by { PushedValue(Dec(n), "GAS"); ValueRoundTrip(n, 0, ""); assert Relayed(Dec(n), 0) == Dec(n); }
      OneMore(log, j, id);
    }
  }

  lemma {:induction false} OneMore(log: Log, j: nat, id: nat)
    requires j < |log| && log[j].GasPublished? && log[j].id == id
    ensures Publishes(log[..j + 1], id) == Publishes(log[..j], id) + 1
  {
    assert log[..j + 1][..j] == log[..j];
  }

  /** The counter of a gas sensor in every reachable state: it cycles through 1 to 13, one
      step for each value published. */
  lemma {:induction false} GasCounterCycles(cfg: Config, steps: seq<Step>, id: nat)
    requires id < |cfg.kinds| && id < |Exec(cfg, steps).motes|
    ensures var s := Exec(cfg, steps);
      var k := Publishes(s.log, id);
      s.motes[id].gasValue == (if k == 0 then 0 else (k - 1) % 13 + 1)
  {
    hide Exec, Causal, HostOk, AckOk, PushedOk, Publishes;
    Reachable(cfg, steps);
    var s := Exec(cfg, steps);
    assert MoteOk(cfg, s.log, id, s.motes[id]);
  }
}
