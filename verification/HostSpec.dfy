/** The control server: SBVK_broker.c and the threads of BrokerAndControlServer.c.

    First what `sendPacket` and `handleMessage` do when nothing interrupts them, then the
    same code cut into the steps between which the UDP thread, the menu thread and the
    `threadAck` threads may be interleaved: each step reads or writes one global. Copying
    one structure is atomic. A slot of the table may be read at once, because an occupied
    slot never changes (`Topics.RegisterKeepsWellFormed`). */
module HostSpec {
  import opened Packets
  import opened Topics

  /** What an ack thread inside `sendto` has read of the slot so far: one of its halves. */
  datatype Half = HasPacket(pkt: Packet) | HasDest(dst: Addr)

  /** The globals behind the retransmission slot. `packetAck` and `destAddrAck` are absent
      until first written. `sleeping` counts the ack threads in their `sleep(3)`, `sending`
      those that found `ackRcv` false and are about to call `sendto`; `reading` holds those
      inside `sendto`, each between its two reads. */
  datatype Globals = Globals(
    ackRcv: bool, ackTypeWanted: nat,
    packetAck: Option<Packet>, destAddrAck: Option<Addr>,
    sleeping: nat, sending: nat, reading: seq<Half>)

  function InitGlobals(): Globals { Globals(false, 0, None, None, 0, 0, []) }

  // ---------- Uninterrupted

  function SendPacket(g: Globals, send: Send): Globals {
    if send.pkt.rel then
      g.(ackRcv := false, ackTypeWanted := send.pkt.mst + 1,
         packetAck := Some(send.pkt), destAddrAck := Some(send.dst), sleeping := g.sleeping + 1)
    else g
  }

  function AfterSends(g: Globals, sends: seq<Send>): Globals
    decreases |sends|
  {
    if sends == [] then g else AfterSends(SendPacket(g, sends[0]), sends[1..])
  }

  function TakeAck(g: Globals, p: Packet): Globals {
    if !g.ackRcv && p.mst == g.ackTypeWanted then g.(ackRcv := true) else g
  }

  /** What this port of `handleMessage` sends; t is the topic table before the call. */
  function Replies(t: Table, p: Packet, src: Addr): seq<Send> {
    if p.mst == HELLO then [Send(if p.option == "init" then HelloResponse() else Connect(), src)]
    else if p.mst == PUBLISH then
      (if p.rel then [Send(PubAck(), src)] else []) + Pushes(PublishSlots(t), p)
    else if p.mst == CONNECT then [Send(ConnAck(), src)]
    else if p.mst == SUBSCRIBE then [Send(SubAck(), src)]
    else if p.mst == PINGREQ then [Send(PingResp(), src)]
    else []
  }

  function TopicsAfter(t: Table, p: Packet, src: Addr): Table {
    if p.mst == SUBSCRIBE then Register(t, p.option, src) else t
  }

  lemma {:induction false} AfterSendsSnoc(g: Globals, sends: seq<Send>, send: Send)
    ensures AfterSends(g, sends + [send]) == SendPacket(AfterSends(g, sends), send)
    decreases |sends|
  {
    var all := sends + [send];
    if sends == [] {
      assert all[1..] == [];
    } else {
      assert all[1..] == sends[1..] + [send];
      AfterSendsSnoc(SendPacket(g, sends[0]), sends[1..], send);
    }
  }

  lemma {:induction false} AfterSendsConcat(g: Globals, x: seq<Send>, y: seq<Send>)
    ensures AfterSends(g, x + y) == AfterSends(AfterSends(g, x), y)
    decreases |x|
  {
    if x == [] {
      assert x + y == y;
    } else {
      assert (x + y)[1..] == x[1..] + y;
      AfterSendsConcat(SendPacket(g, x[0]), x[1..], y);
    }
  }

  // ---------- Statement by statement

  /** The next statement of `sendPacket` and `qosThread` for the packet being sent. */
  datatype Pc = Enter | SetWanted | FillPacket | FillDest | Spawn | Transmit

  /** The packets a thread still has to send, and how far it is with the first. */
  datatype Job = Job(todo: seq<Send>, pc: Pc)

  /** What one statement shows to the rest of the world. */
  datatype Act = Quiet | Gives(send: Send) | Sends(send: Send)

  datatype JobResult = JobResult(g: Globals, job: Job, act: Act)

  function JobStep(g: Globals, job: Job): JobResult
    requires job.todo != []
  {
    var send := job.todo[0];
    match job.pc
    case Enter =>
      if send.pkt.rel then JobResult(g.(ackRcv := false), job.(pc := SetWanted), Gives(send))
      else JobResult(g, job.(pc := Transmit), Gives(send))
    case SetWanted => JobResult(g.(ackTypeWanted := send.pkt.mst + 1), job.(pc := FillPacket), Quiet)
    case FillPacket => JobResult(g.(packetAck := Some(send.pkt)), job.(pc := FillDest), Quiet)
    case FillDest => JobResult(g.(destAddrAck := Some(send.dst)), job.(pc := Spawn), Quiet)
    case Spawn => JobResult(g.(sleeping := g.sleeping + 1), job.(pc := Transmit), Quiet)
    case Transmit => JobResult(g, Job(job.todo[1..], Enter), Sends(send))
  }

  /** The thread of `receiveUDP`: at `recvfrom`, about to read `ackRcv`, about to read
      `ackTypeWanted`, about to assign `ackRcv`, at the `switch`, or in one of the sends it
      leads to. */
  datatype Udp =
    | Waiting
    | Testing(m: Msg)
    | Comparing(m: Msg)
    | Marking(m: Msg)
    | Dispatching(m: Msg)
    | Working(job: Job)

  /** The thread of `messages`: at the menu, or in `publishTo` about to look at slot i. */
  datatype Menu = Prompt | Scanning(p: Packet, i: nat, job: Job)

  datatype Host = Host(g: Globals, topics: Table, udp: Udp, menu: Menu)

  function Init(n: nat): Host {
    Host(InitGlobals(), EmptyTable(n), Waiting, Prompt)
  }

  // ---------- The statements, run without interruption, are the functions above

  function Rank(pc: Pc): nat {
    match pc
    case Enter => 5 case SetWanted => 4 case FillPacket => 3
    case FillDest => 2 case Spawn => 1 case Transmit => 0
  }

  datatype JobEnd = JobEnd(g: Globals, sent: seq<Send>)

  /** Runs a job to its end and collects what it hands to `sendto`. */
  function RunJob(g: Globals, job: Job): JobEnd
    decreases |job.todo|, Rank(job.pc)
  {
    if job.todo == [] then JobEnd(g, [])
    else
      var r := JobStep(g, job);
      var rest := RunJob(r.g, r.job);
      JobEnd(rest.g, (if r.act.Sends? then [r.act.send] else []) + rest.sent)
  }

  lemma {:induction false} UninterruptedJob(g: Globals, todo: seq<Send>)
    ensures RunJob(g, Job(todo, Enter)) == JobEnd(AfterSends(g, todo), todo)
    decreases |todo|
  {
    if todo != [] {
      var send, job := todo[0], Job(todo, Enter);
      var end := SendPacket(g, send);
      FirstSend(g, todo);
      UninterruptedJob(end, todo[1..]);
      assert [send] + todo[1..] == todo;
    }
  }

  lemma {:induction false} FirstSend(g: Globals, todo: seq<Send>)
    requires todo != []
    ensures
      var rest := RunJob(SendPacket(g, todo[0]), Job(todo[1..], Enter));
      RunJob(g, Job(todo, Enter)) == JobEnd(rest.g, [todo[0]] + rest.sent)
  {
    var send := todo[0];
    var r0 := JobStep(g, Job(todo, Enter));
    if send.pkt.rel {
      var r1 := JobStep(r0.g, r0.job);
      var r2 := JobStep(r1.g, r1.job);
      var r3 := JobStep(r2.g, r2.job);
      var r4 := JobStep(r3.g, r3.job);
      assert r4.g == SendPacket(g, send) && r4.job == Job(todo, Transmit);
      var rest := RunJob(r4.g, Job(todo[1..], Enter));
      assert RunJob(r4.g, r4.job) == JobEnd(rest.g, [send] + rest.sent);
      assert RunJob(r3.g, r3.job) == RunJob(r4.g, r4.job);
      assert RunJob(r2.g, r2.job) == RunJob(r3.g, r3.job);
      assert RunJob(r1.g, r1.job) == RunJob(r2.g, r2.job);
    }
  }
}

/** The same server as a program: the globals of SBVK_broker.c and the functions that
    update them, each called to its end. `sent` collects what is handed to `sendto`,
    `ackThreads` counts the threads created. */
module HostProgram {
  import opened Packets
  import opened Topics
  import TopicArray
  import Spec = HostSpec

  class ControlServer {
    const topics: array<Option<Topic>>
    var ackRcv: bool
    var ackTypeWanted: nat
    var packetAck: Option<Packet>
    var destAddrAck: Option<Addr>
    var ackThreads: nat
    var sent: seq<Send>

    constructor (n: nat)
      ensures Globals() == Spec.InitGlobals() && topics[..] == EmptyTable(n) && sent == [] && fresh(topics)
    {
      topics := new Option<Topic>[n](_ => None);
      ackRcv, ackTypeWanted, packetAck, destAddrAck := false, 0, None, None;
      ackThreads, sent := 0, [];
      new;
      assert topics[..] == EmptyTable(n);
    }

    function Globals(): Spec.Globals
      reads this
    {
      Spec.Globals(ackRcv, ackTypeWanted, packetAck, destAddrAck, ackThreads, 0, [])
    }

    method QosThread(p: Packet, dst: Addr)
      modifies this`packetAck, this`destAddrAck, this`ackThreads
      ensures packetAck == Some(p) && destAddrAck == Some(dst) && ackThreads == old(ackThreads) + 1
    {
      packetAck := Some(p);
      destAddrAck := Some(dst);
      ackThreads := ackThreads + 1;
    }

    method SendPacket(p: Packet, dst: Addr)
      modifies this
      ensures Globals() == Spec.SendPacket(old(Globals()), Send(p, dst))
      ensures Globals() == Spec.AfterSends(old(Globals()), [Send(p, dst)])
      ensures sent == old(sent) + [Send(p, dst)]
    {
      assert [Send(p, dst)][1..] == [];
      if p.rel {
        ackRcv := false;
        ackTypeWanted := p.mst + 1;
        QosThread(p, dst);
      }
      sent := sent + [Send(p, dst)];
    }

    /** The inner loop of both publishing loops: one push for each filled entry. */
    method PushEntries(ips: seq<Option<Addr>>, p: Packet)
      modifies this
      ensures Globals() == Spec.AfterSends(old(Globals()), EntryPushes(ips, p))
      ensures sent == old(sent) + EntryPushes(ips, p)
    {
      hide Push, Spec.SendPacket;
      for j := 0 to |ips|
        invariant Globals() == Spec.AfterSends(old(Globals()), EntryPushes(ips[..j], p))
        invariant sent == old(sent) + EntryPushes(ips[..j], p)
      {
        assert ips[..j + 1][..j] == ips[..j];
        if ips[j].Some? {
          SendPacket(Push(p), ips[j].value);
          Spec.AfterSendsSnoc(old(Globals()), EntryPushes(ips[..j], p), Send(Push(p), ips[j].value));
        } else {
          assert EntryPushes(ips[..j], p) + [] == EntryPushes(ips[..j], p);
        }
      }
      assert ips[..|ips|] == ips;
    }

    /** The outer loop, for slots 0 to bound - 1. */
    method PushSlots(p: Packet, bound: nat)
      requires bound <= topics.Length
      modifies this
      ensures Globals() == Spec.AfterSends(old(Globals()), Pushes(topics[..bound], p))
      ensures sent == old(sent) + Pushes(topics[..bound], p)
    {
      hide EntryPushes;
      ghost var t := topics[..];
      for i := 0 to bound
        invariant Globals() == Spec.AfterSends(old(Globals()), Pushes(t[..i], p))
        invariant sent == old(sent) + Pushes(t[..i], p)
      {
        assert t[..i + 1][..i] == t[..i];
        if topics[i].Some? && topics[i].value.name == p.option {
          PushEntries(topics[i].value.ips, p);
          Spec.AfterSendsConcat(old(Globals()), Pushes(t[..i], p), EntryPushes(topics[i].value.ips, p));
        } else {
          assert Pushes(t[..i], p) + [] == Pushes(t[..i], p);
        }
      }
    }

    /** The menu's publication: the whole table. */
    method PublishTo(p: Packet)
      modifies this
      ensures Globals() == Spec.AfterSends(old(Globals()), Pushes(topics[..], p))
      ensures sent == old(sent) + Pushes(topics[..], p)
    {
      PushSlots(p, topics.Length);
      assert topics[..topics.Length] == topics[..];
    }

    /** The PUBLISH case: acknowledge a reliable packet, then push from slots 0 and 1. */
    method PublishCase(p: Packet, src: Addr)
      requires p.mst == PUBLISH
      modifies this
      ensures Globals() == Spec.AfterSends(old(Globals()), Spec.Replies(topics[..], p, src))
      ensures sent == old(sent) + Spec.Replies(topics[..], p, src)
    {
      hide Pushes, PubAck, Spec.SendPacket;
      ghost var before := Globals();
      ghost var first := [];
      assert Spec.AfterSends(before, []) == before;
      if p.rel {
        SendPacket(PubAck(), src);
        first := [Send(PubAck(), src)];
      }
      var bound := if topics.Length < 2 then topics.Length else 2;
      PushSlots(p, bound);
      Spec.AfterSendsConcat(before, first, Pushes(topics[..bound], p));
      assert topics[..bound] == PublishSlots(topics[..]);
      assert Spec.Replies(topics[..], p, src) == first + Pushes(topics[..bound], p);
    }

    method HandleMessage(p: Packet, src: Addr)
      modifies this, topics
      ensures Globals() == Spec.AfterSends(old(Spec.TakeAck(Globals(), p)), old(Spec.Replies(topics[..], p, src)))
      ensures topics[..] == old(Spec.TopicsAfter(topics[..], p, src))
      ensures sent == old(sent) + old(Spec.Replies(topics[..], p, src))
    {
      hide Register, Pushes, PublishSlots, HelloResponse, Connect, ConnAck, SubAck, PubAck, PingResp;
      if !ackRcv && p.mst == ackTypeWanted {
        ackRcv := true;
      }
      if p.mst == HELLO {
        if p.option == "init" {
          SendPacket(HelloResponse(), src);
        } else {
          SendPacket(Connect(), src);
        }
      } else if p.mst == PUBLISH {
        PublishCase(p, src);
      } else if p.mst == CONNECT {
        SendPacket(ConnAck(), src);
      } else if p.mst == SUBSCRIBE {
        TopicArray.Subscribe(topics, p.option, src);
        SendPacket(SubAck(), src);
      } else if p.mst == PINGREQ {
        SendPacket(PingResp(), src);
      }
    }
  }
}
