/** What one mote does at each of its atomic steps: SBVK.c driven by the four sensor
    programs. A step maps the global variables to new ones and a sequence of packets
    handed to the network. Class `MoteProgram.Mote` is proved against these functions. */
module MoteSpec {
  import opened Packets
  import opened Numerals
  import opened Topics

  datatype Kind = Gas | Alarm | Light | Washer

  /** The acknowledgement globals of sendPacket and ackThread. `slot` is the pair `packetAck`,
      `destAddrAck`, written together by a mote; `running` tells whether `ackThread` runs. */
  datatype Ack = Ack(rcv: bool, wanted: nat, slot: Option<Send>, running: bool)

  /** The watchdog `wait_ping_process` and its globals `countPing`, `destAddrPing`. */
  datatype Ping = Ping(running: bool, count: nat, dst: Addr)

  /** `pushed` is `pushedINFO`, absent until `fresh` is first set. */
  datatype State = State(
    kind: Kind,
    connected: bool,
    pushed: Option<string>,
    ack: Ack,
    ping: Ping,
    topics: Table,
    gasValue: nat,
    wamaTimer: bool)

  datatype Result = Result(state: State, out: seq<Send>)

  function Init(kind: Kind, n: nat): State {
    State(kind, false, None, Ack(false, 0, None, false), Ping(false, 0, Server), EmptyTable(n), 0, false)
  }

  /** The topic a sensor program subscribes to; the gas sensor has none. */
  function TopicOf(kind: Kind): string {
    match kind
    case Gas => ""
    case Alarm => "GAS"
    case Light => "Light"
    case Washer => "WAMA/command"
  }

  // ---------- Sending

  /** `sendPacket` and `qosThread`: `process_start` on a running process does nothing. */
  function SendPacket(a: Ack, send: Send): Ack {
    if send.pkt.rel then Ack(false, send.pkt.mst + 1, Some(send), true) else a
  }

  function AfterSends(a: Ack, sends: seq<Send>): Ack {
    if sends == [] then a else SendPacket(AfterSends(a, sends[..|sends| - 1]), sends[|sends| - 1])
  }

  // ---------- Handling a packet

  /** The packets `handleMessage` sends, in order; t is the topic table before the call. */
  function Replies(t: Table, p: Packet, src: Addr): seq<Send> {
    if p.mst == HELLO then [Send(if p.option == "init" then HelloResponse() else Connect(), src)]
    else if p.mst == PUBLISH then
      (if p.rel then [Send(PubAck(), src)] else []) + Pushes(PublishSlots(t), p)
    else if p.mst == SUBSCRIBE then [Send(SubAck(), src)]
    else if p.mst == CONNECT then [Send(ConnAck(), src)]
    else if p.mst == PINGREQ then [Send(PingResp(), src)]
    else if p.mst == PUSH then [Send(PushAck(), src)]
    else []
  }

  function TakeAck(a: Ack, p: Packet): Ack {
    if !a.rcv && p.mst == a.wanted then a.(rcv := true) else a
  }

  function TopicsAfter(t: Table, p: Packet, src: Addr): Table {
    if p.mst == SUBSCRIBE then Register(t, p.option, src) else t
  }

  function ConnectedAfter(connected: bool, p: Packet): bool {
    if p.mst == DISCONNECT then false else if p.mst == CONNACK then true else connected
  }

  function PushedAfter(pushed: Option<string>, p: Packet): Option<string> {
    if p.mst == PUSH then Some(p.payload) else pushed
  }

  function PingAfter(ping: Ping, p: Packet): Ping {
    if p.mst == PINGRESP then ping.(running := false) else ping
  }

  function HandleMessage(s: State, p: Packet, src: Addr): Result {
    var replies := Replies(s.topics, p, src);
    Result(
      State(s.kind,
            ConnectedAfter(s.connected, p),
            PushedAfter(s.pushed, p),
            AfterSends(TakeAck(s.ack, p), replies),
            PingAfter(s.ping, p),
            TopicsAfter(s.topics, p, src),
            s.gasValue, s.wamaTimer),
      replies)
  }

  /** `startPingThread`: the address is written even when the process already runs, the
      counter only when it starts. */
  function StartPing(ping: Ping, dst: Addr): Ping {
    Ping(true, if ping.running then ping.count else 0, dst)
  }

  /** What the washer does with a pushed value after every received packet. */
  function WasherCheck(s: State): State {
    if s.kind == Washer && s.pushed == Some("START") then s.(wamaTimer := true)
    else if s.kind == Washer && s.pushed == Some("STOP") then s.(wamaTimer := false)
    else s
  }

  /** `udp_rx_callback`: start the watchdog, handle the packet, look at the pushed value. */
  function RxCallback(s: State, p: Packet, src: Addr): Result {
    var r := HandleMessage(s.(ping := StartPing(s.ping, src)), p, src);
    Result(WasherCheck(r.state), r.out)
  }

  lemma {:induction false} RxOut(s: State, p: Packet, src: Addr)
    ensures RxCallback(s, p, src).out == Replies(s.topics, p, src)
  {
  }

  /** Whether the alarm program reports its alarm at the end of a callback. */
  predicate AlarmOn(s: State) {
    s.kind == Alarm && s.pushed.Some? && Atoi(s.pushed.value) >= 10
  }

  /** Whether the light program switches at the end of a callback. */
  predicate LightSwitches(s: State) {
    s.kind == Light && (s.pushed == Some("ON") || s.pushed == Some("OFF"))
  }

  // ---------- Timers

  function NextGas(g: nat): nat {
    (if g >= 13 then 0 else g) + 1
  }

  /** What one turn of the sensor program's loop sends, while the root is reachable. */
  function PeriodSends(s: State): seq<Send> {
    if !s.connected then
      if s.kind == Gas then [Send(HelloInit(), Server)]
      else [Send(HelloInit(), Server), Send(Subscribe(TopicOf(s.kind)), Server)]
    else if s.kind == Gas then [Send(Publish("GAS", Dec(NextGas(s.gasValue))), Server)]
    else if s.kind == Washer && s.wamaTimer then [Send(Publish("WAMA/info", Dec(1)), Server)]
    else []
  }

  function Period(s: State): Result {
    Result(
      s.(ack := AfterSends(s.ack, PeriodSends(s)),
         ping := if s.connected then StartPing(s.ping, Server) else s.ping,
         gasValue := if s.connected && s.kind == Gas then NextGas(s.gasValue) else s.gasValue,
         wamaTimer := s.wamaTimer && !(s.connected && s.kind == Washer)),
      PeriodSends(s))
  }

  /** The timer of `ackThread`. */
  function AckTick(s: State): Result {
    if !s.ack.running then Result(s, [])
    else if !s.ack.rcv then Result(s, if s.ack.slot.Some? then [s.ack.slot.value] else [])
    else Result(s.(ack := s.ack.(running := false)), [])
  }

  /** The timer of `wait_ping_process`: the fifth ping is followed at once by a DISCONNECT. */
  function PingTick(s: State): Result {
    if !s.ping.running then Result(s, [])
    else
      var fifth := s.ping.count + 1 >= 5;
      Result(
        s.(ping := Ping(!fifth, s.ping.count + 1, s.ping.dst)),
        if fifth then [Send(PingReq(), s.ping.dst), Send(Disconnect(), s.ping.dst)]
        else [Send(PingReq(), s.ping.dst)])
  }

  datatype Input = PeriodTimer | AckTimer | PingTimer | Receive(pkt: Packet, src: Addr)

  function Step(s: State, input: Input): Result {
    match input
    case PeriodTimer => Period(s)
    case AckTimer => AckTick(s)
    case PingTimer => PingTick(s)
    case Receive(p, src) => RxCallback(s, p, src)
  }

  /** A run of one mote, whatever it is sent and whenever its timers fire. */
  function Run(s: State, inputs: seq<Input>): Result {
    if inputs == [] then Result(s, [])
    else
      var r := Run(s, inputs[..|inputs| - 1]);
      var last := Step(r.state, inputs[|inputs| - 1]);
      Result(last.state, r.out + last.out)
  }

  // ---------- Facts about AfterSends

  function LastReliable(sends: seq<Send>): Option<Send> {
    if sends == [] then None
    else if sends[|sends| - 1].pkt.rel then Some(sends[|sends| - 1])
    else LastReliable(sends[..|sends| - 1])
  }

  lemma {:induction false} LastReliableConcat(a: seq<Send>, b: seq<Send>)
    ensures LastReliable(a + b) == if LastReliable(b).Some? then LastReliable(b) else LastReliable(a)
  {
    if b == [] {
      assert a + b == a;
    } else {
      assert (a + b)[..|a + b| - 1] == a + b[..|b| - 1];
      LastReliableConcat(a, b[..|b| - 1]);
    }
  }

  /** Only the last reliable packet of a burst leaves a trace in the slot. */
  lemma {:induction false} AfterSendsSlot(a: Ack, sends: seq<Send>)
    ensures AfterSends(a, sends) ==
      if LastReliable(sends).Some? then SendPacket(a, LastReliable(sends).value) else a
    ensures LastReliable(sends).Some? ==> LastReliable(sends).value.pkt.rel && LastReliable(sends).value in sends
  {
    if sends != [] { AfterSendsSlot(a, sends[..|sends| - 1]); }
  }

  lemma {:induction false} AfterNoSends(a: Ack)
    ensures AfterSends(a, []) == a
  {
  }

  lemma {:induction false} AfterSendsSnoc(a: Ack, sends: seq<Send>, send: Send)
    ensures AfterSends(a, sends + [send]) == SendPacket(AfterSends(a, sends), send)
  {
    assert (sends + [send])[..|sends|] == sends;
  }

  lemma {:induction false} AfterSendsConcat(a: Ack, x: seq<Send>, y: seq<Send>)
    ensures AfterSends(a, x + y) == AfterSends(AfterSends(a, x), y)
  {
    if y == [] {
      assert x + y == x;
    } else {
      assert (x + y)[..|x + y| - 1] == x + y[..|y| - 1];
      AfterSendsConcat(a, x, y[..|y| - 1]);
    }
  }
}
