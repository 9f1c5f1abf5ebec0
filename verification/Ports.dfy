/** The two ports of the broker: `handleMessage` of SBVK.c, on the sensor nodes, and of
    SBVK_broker.c, on the control server, given the same packets from the same addresses. */
module Ports {
  import opened Packets
  import opened Topics
  import opened Served
  import HostSpec
  import MoteSpec

  /** A packet and where it came from. */
  type Arrival = (Packet, Addr)

  /** The node port after a sequence of packets, with what it sent for each. */
  datatype NodePort = NodePort(state: MoteSpec.State, out: seq<seq<Send>>)

  function RunNode(kind: MoteSpec.Kind, n: nat, w: seq<Arrival>): NodePort {
    if w == [] then NodePort(MoteSpec.Init(kind, n), [])
    else
      var before, last := RunNode(kind, n, w[..|w| - 1]), w[|w| - 1];
      var r := MoteSpec.HandleMessage(before.state, last.0, last.1);
      NodePort(r.state, before.out + [r.out])
  }

  /** The same for the control server. */
  datatype HostPort = HostPort(g: HostSpec.Globals, topics: Table, out: seq<seq<Send>>)

  function RunHost(n: nat, w: seq<Arrival>): HostPort {
    if w == [] then HostPort(HostSpec.InitGlobals(), EmptyTable(n), [])
    else
      var before, last := RunHost(n, w[..|w| - 1]), w[|w| - 1];
      var replies := HostSpec.Replies(before.topics, last.0, last.1);
      HostPort(HostSpec.AfterSends(HostSpec.TakeAck(before.g, last.0), replies),
               HostSpec.TopicsAfter(before.topics, last.0, last.1), before.out + [replies])
  }

  function RequestsIn(w: seq<Arrival>): seq<Request> {
    if w == [] then []
    else
      var last := w[|w| - 1];
      RequestsIn(w[..|w| - 1]) + if last.0.mst == SUBSCRIBE then [Request(last.0.option, last.1)] else []
  }

  /** Both tables are the same function of the SUBSCRIBE packets and the size. */
  lemma {:induction false} TablesAreHistory(kind: MoteSpec.Kind, n: nat, w: seq<Arrival>)
    ensures RunNode(kind, n, w).state.topics == RunHost(n, w).topics == TableAfter(RequestsIn(w), n)
  {
    hide Register, MoteSpec.Replies, MoteSpec.AfterSends, MoteSpec.TakeAck, HostSpec.Replies, HostSpec.AfterSends,
         HostSpec.TakeAck;
    if w != [] {
      var before, last := w[..|w| - 1], w[|w| - 1];
      TablesAreHistory(kind, n, before);
      var reqs := RequestsIn(before);
      assert (reqs + [Request(last.0.option, last.1)])[..|reqs|] == reqs;
      assert reqs + [] == reqs;
    }
  }

  // ---------- One packet

  /** A table of n slots, after these requests, serves this topic to PUBLISH packets. */
  predicate Reaches(reqs: seq<Request>, n: nat, name: string) {
    FirstRequest(reqs, name) < |reqs| && Rank(reqs, name) < 2 && Rank(reqs, name) < n
  }

  /** The packet is no PUSH and, if a PUBLISH, served by both tables or by neither. */
  predicate Alike(reqs: seq<Request>, n: nat, n': nat, p: Packet) {
    p.mst != PUSH && (p.mst == PUBLISH ==> (Reaches(reqs, n, p.option) <==> Reaches(reqs, n', p.option)))
  }

  lemma {:induction false} RepliesAlike(reqs: seq<Request>, n: nat, n': nat, p: Packet, src: Addr)
    ensures MoteSpec.Replies(TableAfter(reqs, n), p, src) == HostSpec.Replies(TableAfter(reqs, n'), p, src) <==>
      Alike(reqs, n, n', p)
  {
    hide TableAfter, Pushes, PublishSlots, FirstRequest, Rank;
    if p.mst == PUBLISH {
      ScanIsEntitled(reqs, n, p);
      ScanIsEntitled(reqs, n', p);
      var ack := if p.rel then [Send(PubAck(), src)] else [];
      assert |ack + Entitled(reqs, n, p)| == |ack| + |Entitled(reqs, n, p)|;
      assert |ack + Entitled(reqs, n', p)| == |ack| + |Entitled(reqs, n', p)|;
    }
  }

  // ---------- The acknowledgement variables

  ghost predicate SameAck(a: MoteSpec.Ack, g: HostSpec.Globals) {
    && a.rcv == g.ackRcv && a.wanted == g.ackTypeWanted
    && match a.slot
       case None => g.packetAck.None? && g.destAddrAck.None?
       case Some(send) => g.packetAck == Some(send.pkt) && g.destAddrAck == Some(send.dst)
  }

  lemma {:induction false} SameAfterSends(a: MoteSpec.Ack, g: HostSpec.Globals, sends: seq<Send>)
    requires SameAck(a, g)
    ensures SameAck(MoteSpec.AfterSends(a, sends), HostSpec.AfterSends(g, sends))
  {
    if sends != [] {
      var init, last := sends[..|sends| - 1], sends[|sends| - 1];
      SameAfterSends(a, g, init);
      HostSpec.AfterSendsSnoc(g, init, last);
      assert sends == init + [last];
    }
  }

  // ---------- Sequences of packets

  /** The two ports send the same packets to the same addresses, packet by packet, if and
      only if no PUSH comes and every PUBLISH is for a topic that both tables serve or
      neither does. The tables then, as always, hold what the history determines, and the
      acknowledgement variables agree. */
  lemma {:induction false} PortsAgreeExactly(kind: MoteSpec.Kind, n: nat, n': nat, w: seq<Arrival>)
    ensures RunNode(kind, n, w).out == RunHost(n', w).out <==>
      forall i :: 0 <= i < |w| ==> Alike(RequestsIn(w[..i]), n, n', w[i].0)
    ensures RunNode(kind, n, w).out == RunHost(n', w).out ==>
      SameAck(RunNode(kind, n, w).state.ack, RunHost(n', w).g)
    ensures |RunNode(kind, n, w).out| == |RunHost(n', w).out| == |w|
  {
    hide MoteSpec.Replies, MoteSpec.AfterSends, HostSpec.Replies, HostSpec.AfterSends, Alike, RequestsIn,
         MoteSpec.TopicsAfter, HostSpec.TopicsAfter;
    if w != [] {
      var before, last := w[..|w| - 1], w[|w| - 1];
      PortsAgreeExactly(kind, n, n', before);
      assert forall i :: 0 <= i < |before| ==> before[..i] == w[..i] && before[i] == w[i];
      TablesAreHistory(kind, n, before);
      TablesAreHistory(kind, n', before);
      RepliesAlike(RequestsIn(before), n, n', last.0, last.1);
      var node, host := RunNode(kind, n, before), RunHost(n', before);
      var x := MoteSpec.Replies(node.state.topics, last.0, last.1);
      var y := HostSpec.Replies(host.topics, last.0, last.1);
      LastOfEach(node.out, host.out, x, y);
      if node.out == host.out && x == y {
        SameAfterSends(MoteSpec.TakeAck(node.state.ack, last.0), HostSpec.TakeAck(host.g, last.0), x);
      }
    }
  }

  lemma {:induction false} LastOfEach<T>(a: seq<T>, b: seq<T>, x: T, y: T)
    requires |a| == |b|
    ensures a + [x] == b + [y] <==> a == b && x == y
  {
    if a + [x] == b + [y] {
      assert a == (a + [x])[..|a|] == (b + [y])[..|b|] == b;
      assert (a + [x])[|a|] == (b + [y])[|b|];
    }
  }

  /** With tables of equal size, or of two slots and more on both sides, they agree if and
      only if no PUSH comes. */
  lemma {:induction false} EqualPortsAgree(kind: MoteSpec.Kind, n: nat, n': nat, w: seq<Arrival>)
    requires n == n' || (n >= 2 && n' >= 2)
    ensures RunNode(kind, n, w).out == RunHost(n', w).out <==> forall i :: 0 <= i < |w| ==> w[i].0.mst != PUSH
    ensures n == n' ==> RunNode(kind, n, w).state.topics == RunHost(n', w).topics
  {
    hide RunNode, RunHost, RequestsIn, Rank, FirstRequest;
    PortsAgreeExactly(kind, n, n', w);
    TablesAreHistory(kind, n, w);
    forall i | 0 <= i < |w| ensures Alike(RequestsIn(w[..i]), n, n', w[i].0) <==> w[i].0.mst != PUSH {}
  }

  /** With the sizes of the source, one slot on a node and ten on the server, they agree if
      and only if no PUSH comes and no PUBLISH is for the second topic that was asked for. */
  lemma {:induction false} SourcePortsAgree(kind: MoteSpec.Kind, w: seq<Arrival>)
    ensures RunNode(kind, 1, w).out == RunHost(10, w).out <==>
      forall i :: 0 <= i < |w| ==>
        w[i].0.mst != PUSH && !(w[i].0.mst == PUBLISH && IsSecond(RequestsIn(w[..i]), w[i].0.option))
  {
    hide RunNode, RunHost, RequestsIn, Rank, FirstRequest;
    PortsAgreeExactly(kind, 1, 10, w);
    forall i | 0 <= i < |w|
      ensures Alike(RequestsIn(w[..i]), 1, 10, w[i].0) <==>
        w[i].0.mst != PUSH && !(w[i].0.mst == PUBLISH && IsSecond(RequestsIn(w[..i]), w[i].0.option)) {}
  }

  predicate IsSecond(reqs: seq<Request>, name: string) {
    FirstRequest(reqs, name) < |reqs| && Rank(reqs, name) == 1
  }
}
