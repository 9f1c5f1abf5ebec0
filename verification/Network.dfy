/** The whole system: any number of sensor nodes and one control server over a network
    that loses, duplicates and reorders packets.

    The log records what happened; the network may deliver any packet ever sent, any number
    of times, in any order, or never. A node's step is atomic (Contiki is cooperative); the
    server's threads are interleaved statement by statement. Source addresses are genuine,
    and both ends agree on the layout of packets. */
module Network {
  import opened Packets
  import opened Numerals
  import opened Topics
  import MoteSpec
  import HostSpec

  /** The commands the menu can publish. */
  datatype Command = LightOn | LightOff | WasherOn | WasherOff

  datatype Event =
    | Sent(m: Msg)                         // handed to the network
    | Handled(m: Msg)                      // `handleMessage` of m.dst ran on it
    | Given(m: Msg)                        // the server entered `sendPacket` with it
    | MenuChose(c: Command)                // the operator chose a command
    | GasPublished(id: nat, value: nat)    // a connected gas sensor published a value
    | AlarmRaised(id: nat, reading: int)   // an alarm read this value at the end of a callback
    | LightSwitched(id: nat)               // a light read "ON" or "OFF"

  type Log = seq<Event>

  datatype Sys = Sys(motes: seq<MoteSpec.State>, host: HostSpec.Host, log: Log)

  /** What is fixed before a run: the program on each node, the table sizes. */
  datatype Config = Config(kinds: seq<MoteSpec.Kind>, serverTopics: nat, moteTopics: nat)

  function Init(cfg: Config): Sys {
    Sys(seq(|cfg.kinds|, i requires 0 <= i < |cfg.kinds| => MoteSpec.Init(cfg.kinds[i], cfg.moteTopics)),
        HostSpec.Init(cfg.serverTopics), [])
  }

  /** The packet the menu thread publishes for a command. */
  function CommandPacket(c: Command): Packet {
    match c
    case LightOn => Publish("Light", "ON")
    case LightOff => Publish("Light", "OFF")
    case WasherOn => Publish("Washer", "ON")
    case WasherOff => Publish("Washer", "OFF")
  }

  datatype Step =
    | MotePeriod(id: nat)
    | MoteAckTimer(id: nat)
    | MotePingTimer(id: nat)
    | MoteReceives(m: Msg)
    | UdpReceives(m: Msg)       // `recvfrom` returns in the UDP thread
    | UdpRuns                   // the UDP thread executes its next statement
    | MenuChooses(c: Command)
    | MenuRuns                  // the menu thread executes its next statement
    | AckWakes                  // an ack thread wakes up and tests `ackRcv`
    | AckReadsPacket            // one that found it false reads `packetAck` in `sendto`
    | AckReadsDest              // or `destAddrAck` first
    | AckSends(k: nat)          // the k-th of these reads the other half and sends

  // ---------- What a step adds to the log

  function SentBy(src: Addr, out: seq<Send>): Log {
    seq(|out|, i requires 0 <= i < |out| => Sent(Msg(src, out[i].dst, out[i].pkt)))
  }

  function PeriodEvents(s: MoteSpec.State, id: nat): Log {
    if s.connected && s.kind == MoteSpec.Gas then [GasPublished(id, MoteSpec.NextGas(s.gasValue))] else []
  }

  /** What a node reports at the end of a receive callback. */
  function CallbackEvents(s: MoteSpec.State, id: nat): Log {
    if MoteSpec.AlarmOn(s) then [AlarmRaised(id, Atoi(s.pushed.value))]
    else if MoteSpec.LightSwitches(s) then [LightSwitched(id)]
    else []
  }

  function ActEvents(act: HostSpec.Act): Log {
    match act
    case Quiet => []
    case Gives(send) => [Given(Msg(Server, send.dst, send.pkt))]
    case Sends(send) => [Sent(Msg(Server, send.dst, send.pkt))]
  }

  // ---------- The steps; one that is not enabled changes nothing

  function MoteStep(s: Sys, id: nat, before: Log, r: MoteSpec.Result, after: Log): Sys
    requires id < |s.motes|
  {
    Sys(s.motes[id := r.state], s.host, s.log + before + SentBy(Mote(id), r.out) + after)
  }

  function Period(s: Sys, id: nat): Sys {
    if id < |s.motes| then
      MoteStep(s, id, PeriodEvents(s.motes[id], id), MoteSpec.Period(s.motes[id]), [])
    else s
  }

  function AckTimer(s: Sys, id: nat): Sys {
    if id < |s.motes| then MoteStep(s, id, [], MoteSpec.AckTick(s.motes[id]), []) else s
  }

  function PingTimer(s: Sys, id: nat): Sys {
    if id < |s.motes| then MoteStep(s, id, [], MoteSpec.PingTick(s.motes[id]), []) else s
  }

  function MoteReceive(s: Sys, m: Msg): Sys {
    if m.dst.Mote? && m.dst.id < |s.motes| && Sent(m) in s.log then
      var r := MoteSpec.RxCallback(s.motes[m.dst.id], m.pkt, m.src);
      MoteStep(s, m.dst.id, [Handled(m)], r, CallbackEvents(r.state, m.dst.id))
    else s
  }

  function UdpReceive(s: Sys, m: Msg): Sys {
    if s.host.udp.Waiting? && m.dst == Server && Sent(m) in s.log
    then s.(host := s.host.(udp := HostSpec.Testing(m)))
    else s
  }

  function UdpRun(s: Sys): Sys {
    var h := s.host;
    match h.udp
    case Waiting => s
    case Testing(m) =>
      s.(host := h.(udp := if !h.g.ackRcv then HostSpec.Comparing(m) else HostSpec.Dispatching(m)))
    case Comparing(m) =>
      s.(host := h.(udp := if m.pkt.mst == h.g.ackTypeWanted then HostSpec.Marking(m) else HostSpec.Dispatching(m)))
    case Marking(m) => s.(host := h.(g := h.g.(ackRcv := true), udp := HostSpec.Dispatching(m)))
    case Dispatching(m) =>
      // The table is read here at once: no other thread ever writes it.
      var todo := HostSpec.Replies(h.topics, m.pkt, m.src);
      Sys(s.motes,
          HostSpec.Host(h.g, HostSpec.TopicsAfter(h.topics, m.pkt, m.src),
                        HostSpec.Working(HostSpec.Job(todo, HostSpec.Enter)), h.menu),
          s.log + [Handled(m)])
    case Working(job) =>
      if job.todo == [] then s.(host := h.(udp := HostSpec.Waiting))
      else
        var r := HostSpec.JobStep(h.g, job);
        Sys(s.motes, HostSpec.Host(r.g, h.topics, HostSpec.Working(r.job), h.menu), s.log + ActEvents(r.act))
  }

  function MenuChoose(s: Sys, c: Command): Sys {
    if s.host.menu.Prompt? then
      var p := CommandPacket(c);
      Sys(s.motes, s.host.(menu := HostSpec.Scanning(p, 0, HostSpec.Job([], HostSpec.Enter))), s.log + [MenuChose(c)])
    else s
  }

  function MenuRun(s: Sys): Sys {
    var h := s.host;
    match h.menu
    case Prompt => s
    case Scanning(p, i, job) =>
      if job.todo != [] then
        var r := HostSpec.JobStep(h.g, job);
        Sys(s.motes, HostSpec.Host(r.g, h.topics, h.udp, HostSpec.Scanning(p, i, r.job)), s.log + ActEvents(r.act))
      else if i < |h.topics| then
        var next := HostSpec.Job(SlotPushes(h.topics[i], p), HostSpec.Enter);
        s.(host := h.(menu := HostSpec.Scanning(p, i + 1, next)))
      else s.(host := h.(menu := HostSpec.Prompt))
  }

  /** `if (!ackRcv)` in `threadAck`: go on to send, or exit. */
  function AckWake(s: Sys): Sys {
    var g := s.host.g;
    if g.sleeping == 0 then s
    else if !g.ackRcv then
      s.(host := s.host.(g := g.(sleeping := g.sleeping - 1, sending := g.sending + 1)))
    else
      s.(host := s.host.(g := g.(sleeping := g.sleeping - 1)))
  }

  /** `sendto(.., &packetAck, .., &destAddrAck, ..)` reads the two globals one after the
      other, in either order. */
  function AckRead(s: Sys, half: HostSpec.Half): Sys {
    var g := s.host.g;
    if g.sending == 0 then s
    else s.(host := s.host.(g := g.(sending := g.sending - 1, reading := g.reading + [half])))
  }

  function AckReadPacket(s: Sys): Sys {
    if s.host.g.packetAck.Some? then AckRead(s, HostSpec.HasPacket(s.host.g.packetAck.value)) else s
  }

  function AckReadDest(s: Sys): Sys {
    if s.host.g.destAddrAck.Some? then AckRead(s, HostSpec.HasDest(s.host.g.destAddrAck.value)) else s
  }

  /** What an ack thread sends: the half it holds, with the other as it is at this moment. */
  function Completed(g: HostSpec.Globals, half: HostSpec.Half): Option<Msg> {
    match half
    case HasPacket(p) => if g.destAddrAck.Some? then Some(Msg(Server, g.destAddrAck.value, p)) else None
    case HasDest(d) => if g.packetAck.Some? then Some(Msg(Server, d, g.packetAck.value)) else None
  }

  function AckSend(s: Sys, k: nat): Sys {
    var g := s.host.g;
    if k < |g.reading| && Completed(g, g.reading[k]).Some? then
      Sys(s.motes,
          s.host.(g := g.(sleeping := g.sleeping + 1, reading := g.reading[..k] + g.reading[k + 1..])),
          s.log + [Sent(Completed(g, g.reading[k]).value)])
    else s
  }

  function Apply(s: Sys, step: Step): Sys {
    match step
    case MotePeriod(id) => Period(s, id)
    case MoteAckTimer(id) => AckTimer(s, id)
    case MotePingTimer(id) => PingTimer(s, id)
    case MoteReceives(m) => MoteReceive(s, m)
    case UdpReceives(m) => UdpReceive(s, m)
    case UdpRuns => UdpRun(s)
    case MenuChooses(c) => MenuChoose(s, c)
    case MenuRuns => MenuRun(s)
    case AckWakes => AckWake(s)
    case AckReadsPacket => AckReadPacket(s)
    case AckReadsDest => AckReadDest(s)
    case AckSends(k) => AckSend(s, k)
  }

  /** The state after any schedule of steps, from a given state and from power-on. */
  function Continue(s: Sys, steps: seq<Step>): Sys {
    if steps == [] then s else Apply(Continue(s, steps[..|steps| - 1]), steps[|steps| - 1])
  }

  function Exec(cfg: Config, steps: seq<Step>): Sys {
    Continue(Init(cfg), steps)
  }

  // ---------- Reachability

  ghost predicate Leads(s: Sys, s': Sys) {
    exists steps :: Continue(s, steps) == s'
  }

  ghost predicate CanReach(cfg: Config, s: Sys) {
    Leads(Init(cfg), s)
  }

  lemma {:induction false} StandStill(s: Sys)
    ensures Leads(s, s)
  {
    assert Continue(s, []) == s;
  }

  lemma {:induction false} Follow(start: Sys, s: Sys, step: Step) returns (s': Sys)
    requires Leads(start, s)
    ensures s' == Apply(s, step) && Leads(start, s')
  {
    hide Apply;
    s' := Apply(s, step);
    var steps :| Continue(start, steps) == s;
    assert (steps + [step])[..|steps|] == steps;
    assert Continue(start, steps + [step]) == s';
  }

  /** The same step, taken k times in a row. */
  function Repeat(s: Sys, step: Step, k: nat): Sys
    decreases k
  {
    if k == 0 then s else Repeat(Apply(s, step), step, k - 1)
  }

  lemma {:induction false} FollowOn(start: Sys, s: Sys, step: Step, k: nat) returns (s': Sys)
    requires Leads(start, s)
    ensures s' == Repeat(s, step, k) && Leads(start, s')
    decreases k
  {
    hide Apply, Leads;
    s' := s;
    if k > 0 {
      s' := Follow(start, s, step);
      s' := FollowOn(start, s', step, k - 1);
    }
  }

  lemma {:induction false} RepeatSum(s: Sys, step: Step, j: nat, k: nat)
    ensures Repeat(s, step, j + k) == Repeat(Repeat(s, step, j), step, k)
    decreases j
  {
    hide Apply;
    if j > 0 { RepeatSum(Apply(s, step), step, j - 1, k); }
  }

  lemma {:induction false} LeadsOn(a: Sys, b: Sys, c: Sys)
    requires Leads(a, b) && Leads(b, c)
    ensures Leads(a, c)
  {
    var steps :| Continue(b, steps) == c;
    ContinueFrom(a, b, steps);
  }

  lemma {:induction false} ContinueFrom(a: Sys, b: Sys, steps: seq<Step>)
    requires Leads(a, b)
    ensures Leads(a, Continue(b, steps))
  {
    hide Apply, Leads;
    if steps != [] {
      ContinueFrom(a, b, steps[..|steps| - 1]);
      var c := Follow(a, Continue(b, steps[..|steps| - 1]), steps[|steps| - 1]);
    }
  }
}
