/** The two loops over the topic array that the SUBSCRIBE case runs. */
module TopicArray {
  import opened Packets
  import opened Topics

  /** First loop: is the name present; second loop: take the first empty slot. */
  method Subscribe(topics: array<Option<Topic>>, name: string, from: Addr)
    modifies topics
    ensures topics[..] == Register(old(topics[..]), name, from)
  {
    ghost var t := topics[..];
    var exist, created := false, false;
    for i := 0 to topics.Length
      invariant exist <==> Find(t, name) < i
    {
      if topics[i].Some? {
        if topics[i].value.name == name {
          exist := true;
          assert IsAt(t, i, name);
        }
      }
      assert Find(t, name) == i ==> IsAt(t, i, name);
    }
    if !exist {
      for i := 0 to topics.Length
        invariant created <==> FirstFree(t) < i
        invariant topics[..] == if created then t[FirstFree(t) := Some(NewTopic(name, from))] else t
      {
        assert FirstFree(t) == i ==> t[i].None?;
        if topics[i].None? && !created {
          created := true;
          assert FirstFree(t) == i by { assert t[i].None?; }
          topics[i] := Some(NewTopic(name, from));
        }
      }
    }
  }
}

/** A sensor node: the globals of SBVK.c and of its sensor program, and the functions that
    update them. `sent` collects what is handed to `simple_udp_sendto`. */
module MoteProgram {
  import opened Packets
  import opened Numerals
  import opened Topics
  import TopicArray
  import Spec = MoteSpec

  class Mote {
    const kind: Spec.Kind
    const topics: array<Option<Topic>>
    var connected: bool
    var pushedINFO: Option<string>
    var ackRcv: bool
    var ackTypeWanted: nat
    var slot: Option<Send>
    var ackThread: bool
    var pingProcess: bool
    var countPing: nat
    var destAddrPing: Addr
    var gasValue: nat
    var wamaTimer: bool
    var sent: seq<Send>

    constructor (kind: Spec.Kind, n: nat)
      ensures State() == Spec.Init(kind, n) && sent == [] && fresh(topics)
    {
      this.kind := kind;
      topics := new Option<Topic>[n](_ => None);
      connected, pushedINFO := false, None;
      ackRcv, ackTypeWanted, slot, ackThread := false, 0, None, false;
      pingProcess, countPing, destAddrPing := false, 0, Server;
      gasValue, wamaTimer, sent := 0, false, [];
      new;
      assert topics[..] == EmptyTable(n);
    }

    function AckState(): Spec.Ack
      reads this
    {
      Spec.Ack(ackRcv, ackTypeWanted, slot, ackThread)
    }

    function PingState(): Spec.Ping
      reads this
    {
      Spec.Ping(pingProcess, countPing, destAddrPing)
    }

    function State(): Spec.State
      reads this, topics
    {
      Spec.State(kind, connected, pushedINFO, AckState(), PingState(), topics[..], gasValue, wamaTimer)
    }

    method SendPacket(p: Packet, dst: Addr)
      modifies this`ackRcv, this`ackTypeWanted, this`slot, this`ackThread, this`sent
      ensures AckState() == Spec.SendPacket(old(AckState()), Send(p, dst))
      ensures AckState() == Spec.AfterSends(old(AckState()), [Send(p, dst)])
      ensures sent == old(sent) + [Send(p, dst)]
    {
      assert [Send(p, dst)][..0] == [];
      if p.rel {
        ackRcv := false;
        ackTypeWanted := p.mst + 1;
        slot := Some(Send(p, dst));
        ackThread := true;
      }
      sent := sent + [Send(p, dst)];
    }

    /** The inner loop of the PUBLISH case: one push for each filled entry. */
    method PushToEntries(ips: seq<Option<Addr>>, p: Packet)
      modifies this`ackRcv, this`ackTypeWanted, this`slot, this`ackThread, this`sent
      ensures AckState() == Spec.AfterSends(old(AckState()), EntryPushes(ips, p))
      ensures sent == old(sent) + EntryPushes(ips, p)
    {
      hide Push, Spec.SendPacket;
      for j := 0 to |ips|
        invariant AckState() == Spec.AfterSends(old(AckState()), EntryPushes(ips[..j], p))
        invariant sent == old(sent) + EntryPushes(ips[..j], p)
      {
        assert ips[..j + 1][..j] == ips[..j];
        if ips[j].Some? {
          SendPacket(Push(p), ips[j].value);
          Spec.AfterSendsSnoc(old(AckState()), EntryPushes(ips[..j], p), Send(Push(p), ips[j].value));
        } else {
          assert EntryPushes(ips[..j], p) + [] == EntryPushes(ips[..j], p);
        }
      }
      assert ips[..|ips|] == ips;
    }

    /** The outer loop: slots 0 and 1, as far as the table goes. */
    method PushToSubscribers(p: Packet)
      modifies this`ackRcv, this`ackTypeWanted, this`slot, this`ackThread, this`sent
      ensures AckState() == Spec.AfterSends(old(AckState()), Pushes(PublishSlots(topics[..]), p))
      ensures sent == old(sent) + Pushes(PublishSlots(topics[..]), p)
    {
      hide EntryPushes, Spec.AfterSends;
      ghost var t := PublishSlots(topics[..]);
      var i := 0;
      Spec.AfterNoSends(AckState());
      while i <= 1 && i < topics.Length
        invariant i <= |t|
        invariant AckState() == Spec.AfterSends(old(AckState()), Pushes(t[..i], p))
        invariant sent == old(sent) + Pushes(t[..i], p)
      {
        assert t[..i + 1][..i] == t[..i];
        if topics[i].Some? && topics[i].value.name == p.option {
          PushToEntries(topics[i].value.ips, p);
          Spec.AfterSendsConcat(old(AckState()), Pushes(t[..i], p), EntryPushes(topics[i].value.ips, p));
        } else {
          assert Pushes(t[..i], p) + [] == Pushes(t[..i], p);
        }
        i := i + 1;
      }
      assert t[..i] == t;
    }

    /** The PUBLISH case: acknowledge a reliable packet first, then push. */
    method PublishCase(p: Packet, src: Addr)
      requires p.mst == PUBLISH
      modifies this`ackRcv, this`ackTypeWanted, this`slot, this`ackThread, this`sent
      ensures AckState() == Spec.AfterSends(old(AckState()), Spec.Replies(topics[..], p, src))
      ensures sent == old(sent) + Spec.Replies(topics[..], p, src)
    {
      hide Pushes, PublishSlots;
      ghost var before := AckState();
      if p.rel {
        SendPacket(PubAck(), src);
      }
      ghost var first := if p.rel then [Send(PubAck(), src)] else [];
      assert Spec.AfterSends(before, []) == before;
      PushToSubscribers(p);
      Spec.AfterSendsConcat(before, first, Pushes(PublishSlots(topics[..]), p));
    }

    method HandleMessage(p: Packet, src: Addr)
      modifies this`ackRcv, this`ackTypeWanted, this`slot, this`ackThread, this`sent
      modifies this`connected, this`pushedINFO, this`pingProcess, topics
      ensures connected == Spec.ConnectedAfter(old(connected), p)
      ensures pushedINFO == Spec.PushedAfter(old(pushedINFO), p)
      ensures PingState() == Spec.PingAfter(old(PingState()), p)
      ensures topics[..] == Spec.TopicsAfter(old(topics[..]), p, src)
      ensures AckState() == Spec.AfterSends(Spec.TakeAck(old(AckState()), p), Spec.Replies(old(topics[..]), p, src))
      ensures sent == old(sent) + Spec.Replies(old(topics[..]), p, src)
    {
      hide Register, Pushes, PublishSlots, HelloResponse, Connect, ConnAck, SubAck, PubAck, PushAck, PingResp;
      if !ackRcv && p.mst == ackTypeWanted {
        ackRcv := true;
      }
      ghost var acked := AckState();
      assert acked == Spec.TakeAck(old(AckState()), p);
      assert Spec.AfterSends(acked, []) == acked;
      if p.mst == HELLO {
        if p.option == "init" {
          SendPacket(HelloResponse(), src);
        } else {
          SendPacket(Connect(), src);
        }
      } else if p.mst == PUBLISH {
        PublishCase(p, src);
      } else if p.mst == SUBSCRIBE {
        TopicArray.Subscribe(topics, p.option, src);
        SendPacket(SubAck(), src);
      } else if p.mst == DISCONNECT {
        connected := false;
      } else if p.mst == CONNECT {
        SendPacket(ConnAck(), src);
      } else if p.mst == CONNACK {
        connected := true;
      } else if p.mst == PINGREQ {
        SendPacket(PingResp(), src);
      } else if p.mst == PINGRESP {
        pingProcess := false;
      } else if p.mst == PUSH {
        pushedINFO := Some(p.payload);
        SendPacket(PushAck(), src);
      }
    }

    method StartPingThread(dst: Addr)
      modifies this`destAddrPing, this`pingProcess, this`countPing
      ensures PingState() == Spec.StartPing(old(PingState()), dst)
    {
      destAddrPing := dst;
      if !pingProcess {
        pingProcess := true;
        countPing := 0;
      }
    }

    /** What the sensor programs do with `getPushedINFO()` at the end of a callback. */
    method LookAtPushedInfo() returns (alarm: bool, switched: bool)
      modifies this`wamaTimer
      ensures State() == Spec.WasherCheck(old(State()))
      ensures alarm <==> Spec.AlarmOn(State())
      ensures switched <==> Spec.LightSwitches(State())
    {
      alarm, switched := false, false;
      if pushedINFO.Some? {
        match kind
        case Alarm => alarm := Atoi(pushedINFO.value) >= 10;
        case Light => switched := pushedINFO.value == "ON" || pushedINFO.value == "OFF";
        case Washer =>
          if pushedINFO.value == "START" { wamaTimer := true; }
          if pushedINFO.value == "STOP" { wamaTimer := false; }
        case Gas =>
      }
    }

    /** `udp_rx_callback` of the four sensor programs. */
    method RxCallback(p: Packet, src: Addr) returns (alarm: bool, switched: bool)
      modifies this, topics
      ensures State() == Spec.RxCallback(old(State()), p, src).state
      ensures sent == old(sent) + Spec.RxCallback(old(State()), p, src).out
      ensures alarm <==> Spec.AlarmOn(State())
      ensures switched <==> Spec.LightSwitches(State())
    {
      hide Spec.Replies, Spec.TopicsAfter, Spec.AfterSends, Spec.TakeAck, Spec.WasherCheck;
      hide Spec.AlarmOn, Spec.LightSwitches;
      StartPingThread(src);
      HandleMessage(p, src);
      assert State() == Spec.HandleMessage(old(State()).(ping := Spec.StartPing(old(PingState()), src)), p, src).state;
      alarm, switched := LookAtPushedInfo();
    }

    /** The turn of a node that is not connected. */
    method SayHello()
      requires !connected
      modifies this`ackRcv, this`ackTypeWanted, this`slot, this`ackThread, this`sent
      ensures AckState() == Spec.AfterSends(old(AckState()), Spec.PeriodSends(old(State())))
      ensures sent == old(sent) + Spec.PeriodSends(old(State()))
    {
      hide HelloInit, Subscribe, Spec.TopicOf, Spec.SendPacket;
      SendPacket(HelloInit(), Server);
      if kind != Spec.Gas {
        var request := Send(Subscribe(Spec.TopicOf(kind)), Server);
        SendPacket(request.pkt, Server);
        Spec.AfterSendsSnoc(old(AckState()), [Send(HelloInit(), Server)], request);
        assert [Send(HelloInit(), Server)] + [request] == Spec.PeriodSends(old(State()));
      }
    }

    /** The turn of a connected node. */
    method Report()
      requires connected
      modifies this`ackRcv, this`ackTypeWanted, this`slot, this`ackThread, this`sent, this`gasValue, this`wamaTimer
      ensures AckState() == Spec.AfterSends(old(AckState()), Spec.PeriodSends(old(State())))
      ensures sent == old(sent) + Spec.PeriodSends(old(State()))
      ensures gasValue == if kind == Spec.Gas then Spec.NextGas(old(gasValue)) else old(gasValue)
      ensures wamaTimer <==> old(wamaTimer) && kind != Spec.Washer
    {
      hide Publish, Dec, Spec.SendPacket;
      assert Spec.AfterSends(AckState(), []) == AckState();
      if kind == Spec.Gas {
        if gasValue >= 13 {
          gasValue := 0;
        }
        gasValue := gasValue + 1;
        SendPacket(Publish("GAS", Dec(gasValue)), Server);
      } else if kind == Spec.Washer && wamaTimer {
        SendPacket(Publish("WAMA/info", Dec(1)), Server);
        wamaTimer := false;
      }
    }

    /** One turn of the sensor program's loop while the root is reachable. */
    method Period()
      modifies this
      ensures State() == Spec.Period(old(State())).state
      ensures sent == old(sent) + Spec.Period(old(State())).out
    {
      hide Spec.PeriodSends, Spec.AfterSends, Spec.NextGas;
      if !connected {
        SayHello();
      } else {
        StartPingThread(Server);
        assert Spec.PeriodSends(State()) == Spec.PeriodSends(old(State())) by {
          PeriodIgnoresPing(State(), old(State()));
        }
        Report();
      }
    }

    lemma {:induction false} PeriodIgnoresPing(s: Spec.State, t: Spec.State)
      requires s == t.(ping := s.ping)
      ensures Spec.PeriodSends(s) == Spec.PeriodSends(t)
    {
    }

    /** The timer of the process `ackThread`. */
    method AckTimer()
      modifies this`ackThread, this`sent
      ensures State() == Spec.AckTick(old(State())).state
      ensures sent == old(sent) + Spec.AckTick(old(State())).out
    {
      if ackThread {
        if !ackRcv {
          if slot.Some? { sent := sent + [slot.value]; }
        } else {
          ackThread := false;
        }
      }
    }

    /** The timer of the process `wait_ping_process`. */
    method PingTimer()
      modifies this`countPing, this`pingProcess, this`sent
      ensures State() == Spec.PingTick(old(State())).state
      ensures sent == old(sent) + Spec.PingTick(old(State())).out
    {
      if pingProcess {
        sent := sent + [Send(PingReq(), destAddrPing)];
        countPing := countPing + 1;
        if countPing >= 5 {
          sent := sent + [Send(Disconnect(), destAddrPing)];
          pingProcess := false;
        }
      }
    }
  }
}
