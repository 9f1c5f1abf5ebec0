/** Every step of a sensor node keeps the invariant. */
module MoteSteps {
  import opened Packets
  import opened Numerals
  import opened Topics
  import opened Network
  import opened Causality
  import opened Invariant
  import MoteSpec

  // ---------- Sending

  /** Everything the node sends is allowed and goes to the server. */
  ghost predicate AllMay(cfg: Config, log: Log, id: nat, out: seq<Send>)
    requires id < |cfg.kinds|
  {
    forall k :: 0 <= k < |out| ==> out[k].dst == Server && MoteMay(cfg, log, id, out[k].pkt)
  }

  lemma {:induction false} AckAfterSends(cfg: Config, log: Log, id: nat, a: MoteSpec.Ack, out: seq<Send>)
    requires id < |cfg.kinds| && AckOk(cfg, log, id, a) && AllMay(cfg, log, id, out)
    ensures AckOk(cfg, log, id, MoteSpec.AfterSends(a, out))
  {
    hide MoteMay, HandledType;
    MoteSpec.AfterSendsSlot(a, out);
  }

  lemma {:induction false} NextGasIsAfter(k: nat)
    ensures MoteSpec.NextGas(GasAfter(k)) == GasAfter(k + 1)
  {
  }

  // ---------- The period timer

  /** What a node that is not connected sends needs no cause. */
  lemma {:induction false} HelloMay(cfg: Config, log: Log, id: nat, st: MoteSpec.State)
    requires id < |cfg.kinds| && st.kind == cfg.kinds[id] && !st.connected
    ensures AllMay(cfg, log, id, MoteSpec.PeriodSends(st))
  {
  }

  lemma {:induction false} ReportMay(cfg: Config, log: Log, id: nat, st: MoteSpec.State)
    requires id < |cfg.kinds| && MoteOk(cfg, log, id, st) && st.connected
    ensures AllMay(cfg, log + PeriodEvents(st, id), id, MoteSpec.PeriodSends(st))
  {
    hide Dec, AckOk, PushedOk, Publishes;
    if st.kind == MoteSpec.Gas {
      var v, log1 := MoteSpec.NextGas(st.gasValue), log + PeriodEvents(st, id);
      assert log1[|log|] == GasPublished(id, v);
      assert GasValueSent(log1, id, Publish("GAS", Dec(v)));
    }
  }

  lemma {:induction false} PeriodEventsCaused(cfg: Config, log: Log, id: nat, st: MoteSpec.State)
    requires id < |cfg.kinds| && MoteOk(cfg, log, id, st) && PeriodEvents(st, id) != []
    ensures Caused(cfg, log, PeriodEvents(st, id)[0])
    ensures Publishes(log + PeriodEvents(st, id), id) == Publishes(log, id) + 1
    ensures MoteSpec.NextGas(st.gasValue) == GasAfter(Publishes(log, id) + 1)
  {
    NextGasIsAfter(Publishes(log, id));
    assert (log + PeriodEvents(st, id))[..|log|] == log;
  }

  lemma {:induction false} PeriodKeeps(cfg: Config, s: Sys, id: nat)
    requires Inv(cfg, s)
    ensures Inv(cfg, Period(s, id))
  {
    hide Caused, Causal, HostOk, MoteMay, GasAfter, Publishes, MoteSpec.NextGas;
    if id < |s.motes| {
      var st, r := s.motes[id], MoteSpec.Period(s.motes[id]);
      var before := PeriodEvents(st, id);
      var log1 := s.log + before;
      assert MoteOk(cfg, s.log, id, st);
      if before != [] { PeriodEventsCaused(cfg, s.log, id, st); } else { assert log1 == s.log; }
      assert AllMay(cfg, log1, id, r.out) by {
        if st.connected { ReportMay(cfg, s.log, id, st); } else { HelloMay(cfg, log1, id, st); }
      }
      assert MoteOk(cfg, log1, id, r.state) by {
        AckOkGrows(cfg, s.log, log1, id, st.ack);
        AckAfterSends(cfg, log1, id, st.ack, r.out);
        PushedOkGrows(s.log, log1, id, st.pushed);
      }
      MoteStepKeeps(cfg, s, id, before, r, []);
    }
  }

  // ---------- The two other timers

  lemma {:induction false} AckTimerKeeps(cfg: Config, s: Sys, id: nat)
    requires Inv(cfg, s)
    ensures Inv(cfg, AckTimer(s, id))
  {
    hide Caused, Causal, HostOk, MoteMay;
    if id < |s.motes| {
      assert MoteOk(cfg, s.log, id, s.motes[id]);
      assert s.log + [] == s.log;
      MoteStepKeeps(cfg, s, id, [], MoteSpec.AckTick(s.motes[id]), []);
    }
  }

  lemma {:induction false} PingTimerKeeps(cfg: Config, s: Sys, id: nat)
    requires Inv(cfg, s)
    ensures Inv(cfg, PingTimer(s, id))
  {
    hide Caused, Causal, HostOk;
    if id < |s.motes| {
      assert MoteOk(cfg, s.log, id, s.motes[id]);
      assert s.log + [] == s.log;
      MoteStepKeeps(cfg, s, id, [], MoteSpec.PingTick(s.motes[id]), []);
    }
  }

  // ---------- Receiving

  /** What a sensor node can find in a packet addressed to it: it comes from the server, is
      of one of six types, and an acknowledgement has its reason in the log. */
  ghost predicate FromServer(log: Log, m: Msg) {
    && m.src == Server
    && m.pkt.mst in {HELLO, CONNACK, SUBACK, PUBACK, PINGRESP, PUSH}
    && (m.pkt.mst == HELLO ==> m.pkt == HelloResponse())
    && (m.pkt.mst == CONNACK ==> m.pkt == ConnAck())
    && (m.pkt.mst in {CONNACK, SUBACK, PUBACK} ==> HandledType(log, m.dst, m.pkt.mst - 1))
    && (m.pkt.mst == PUSH ==> PushOf(log, m.pkt))
  }

  lemma {:induction false} HostMayIsFromServer(log: Log, p: Packet, dst: Addr)
    requires HostMay(log, p, dst)
    ensures FromServer(log, Msg(Server, dst, p))
  {
  }

  lemma {:induction false} SentToMote(cfg: Config, log: Log, m: Msg)
    requires Causal(cfg, log) && Sent(m) in log && m.dst.Mote?
    ensures FromServer(log, m)
  {
    hide Causal, MoteMay, HostMay, FromServer, PushOf;
    CauseOf(cfg, log, Sent(m));
    if Given(m) in log {
      CauseOf(cfg, log, Given(m));
      HostMayIsFromServer(log, m.pkt, m.dst);
    } else {
      var d: Addr :| Given(Msg(Server, d, m.pkt)) in log;
      CauseOf(cfg, log, Given(Msg(Server, d, m.pkt)));
      HostMayIsFromServer(log, m.pkt, d);
      PushFromServer(log, m, Msg(Server, d, m.pkt));
    }
  }

  /** A push is acceptable whichever node it is delivered to. */
  lemma {:induction false} PushFromServer(log: Log, m: Msg, given: Msg)
    requires FromServer(log, given) && m.src == Server && m.pkt == given.pkt && m.pkt.mst == PUSH
    ensures FromServer(log, m)
  {
    hide PushOf, HandledType;
  }

  lemma {:induction false} PushStartsBlank(log: Log, p: Packet)
    requires PushOf(log, p)
    ensures "  " <= p.payload && p.mst == PUSH
  {
    var q: Packet :| PublishSeen(log, q) && p == Push(q);
    assert p.payload == "  " + q.payload;
  }

  /** The replies of a node to what the server sends: CONNECT to a HELLO response, PUSHACK
      to a push, nothing to the rest. */
  lemma {:induction false} RepliesMay(cfg: Config, log: Log, id: nat, t: Table, m: Msg)
    requires id < |cfg.kinds| && m.dst == Mote(id) && FromServer(log, m)
    ensures AllMay(cfg, log + [Handled(m)], id, MoteSpec.Replies(t, m.pkt, m.src))
  {
    hide HandledType, PushOf;
    var log1 := log + [Handled(m)];
    assert log1[|log|] == Handled(m);
    if m.pkt.mst == HELLO {
      assert "response"[0] != "init"[0];
    } else if m.pkt.mst == PUSH {
      assert PushRead(log1, id, m.pkt.payload);
      assert PushHandled(log1, id);
    }
  }

  /** A packet of the awaited type proves that the server handled what the slot holds. */
  lemma {:induction false} TakeAckOk(cfg: Config, log: Log, id: nat, a: MoteSpec.Ack, m: Msg)
    requires id < |cfg.kinds| && AckOk(cfg, log, id, a) && m.dst == Mote(id) && FromServer(log, m)
    ensures AckOk(cfg, log, id, MoteSpec.TakeAck(a, m.pkt))
  {
    hide HandledType, PushOf;
    if a.slot.Some? {
      ReliableTypes(cfg, log, id, a.slot.value.pkt);
    }
  }

  lemma {:induction false} ReliableTypes(cfg: Config, log: Log, id: nat, p: Packet)
    requires id < |cfg.kinds| && MoteMay(cfg, log, id, p) && p.rel
    ensures p.mst in {CONNECT, SUBSCRIBE, PUBLISH}
  {
  }

  lemma {:induction false} CallbackCaused(cfg: Config, log: Log, id: nat, s: MoteSpec.State)
    requires id < |cfg.kinds| && s.kind == cfg.kinds[id] && PushedOk(log, id, s.pushed)
    ensures forall k :: 0 <= k < |CallbackEvents(s, id)| ==>
      CallbackEvents(s, id)[k].AlarmRaised? && Caused(cfg, log, CallbackEvents(s, id)[k])
  {
    assert "ON"[0] != "  "[0] && "OFF"[0] != "  "[0];
  }

  lemma {:induction false} WasherIdles(log: Log, id: nat, s: MoteSpec.State)
    requires PushedOk(log, id, s.pushed)
    ensures MoteSpec.WasherCheck(s) == s || MoteSpec.WasherCheck(s) == s.(wamaTimer := false)
  {
    assert "START"[0] != "  "[0];
  }

  /** The node after handling m. */
  lemma {:induction false} ReceiveOk(cfg: Config, log: Log, id: nat, s: MoteSpec.State, m: Msg)
    requires id < |cfg.kinds| && MoteOk(cfg, log, id, s) && m.dst == Mote(id) && FromServer(log, m)
    ensures MoteOk(cfg, log + [Handled(m)], id, MoteSpec.RxCallback(s, m.pkt, m.src).state)
  {
    hide MoteMay, HandledType, GasAfter, MoteSpec.Replies, MoteSpec.AfterSends, MoteSpec.TakeAck, MoteSpec.WasherCheck;
    var log1 := log + [Handled(m)];
    assert log1[|log|] == Handled(m);
    var r := MoteSpec.HandleMessage(s.(ping := MoteSpec.StartPing(s.ping, m.src)), m.pkt, m.src).state;
    assert AckOk(cfg, log1, id, r.ack) by {
      TakeAckOk(cfg, log, id, s.ack, m);
      AckOkGrows(cfg, log, log1, id, MoteSpec.TakeAck(s.ack, m.pkt));
      RepliesMay(cfg, log, id, s.topics, m);
      AckAfterSends(cfg, log1, id, MoteSpec.TakeAck(s.ack, m.pkt), MoteSpec.Replies(s.topics, m.pkt, m.src));
    }
    assert PushedOk(log1, id, r.pushed) by {
      PushedOkGrows(log, log1, id, s.pushed);
      if m.pkt.mst == PUSH {
        PushStartsBlank(log, m.pkt);
        assert PushRead(log1, id, m.pkt.payload);
      }
    }
    assert Publishes(log1, id) == Publishes(log, id) by { assert log1[..|log|] == log; }
    WasherIdles(log1, id, r);
  }

  lemma {:induction false} ReceiveKeeps(cfg: Config, s: Sys, m: Msg)
    requires Inv(cfg, s)
    ensures Inv(cfg, MoteReceive(s, m))
  {
    hide Caused, Causal, HostOk, MoteMay, FromServer, MoteSpec.RxCallback, MoteOk, CallbackEvents;
    if m.dst.Mote? && m.dst.id < |s.motes| && Sent(m) in s.log {
      var id := m.dst.id;
      var r := MoteSpec.RxCallback(s.motes[id], m.pkt, m.src);
      var log1 := s.log + [Handled(m)];
      SentToMote(cfg, s.log, m);
      HandledCaused(cfg, s.log, m);
      ReceiveOk(cfg, s.log, id, s.motes[id], m);
      RepliesMay(cfg, s.log, id, s.motes[id].topics, m);
      MoteSpec.RxOut(s.motes[id], m.pkt, m.src);
      MoteOkParts(cfg, log1, id, r.state);
      CallbackCaused(cfg, log1, id, r.state);
      MoteStepKeeps(cfg, s, id, [Handled(m)], r, CallbackEvents(r.state, id));
    }
  }

  lemma {:induction false} HandledCaused(cfg: Config, log: Log, m: Msg)
    requires Sent(m) in log
    ensures Caused(cfg, log, Handled(m))
  {
  }

  lemma {:induction false} MoteOkParts(cfg: Config, log: Log, id: nat, s: MoteSpec.State)
    requires id < |cfg.kinds| && MoteOk(cfg, log, id, s)
    ensures s.kind == cfg.kinds[id] && PushedOk(log, id, s.pushed)
  {
  }
}
