/** With timers and operator off and no duplication, everything in flight dies out: the runs
    of `Network` with a record of the packets in the air, each delivered or lost once, and
    the server's threads interleaved statement by statement. A network that loses nothing
    comes to rest as well. */
module Quiescence {
  import opened Packets
  import opened Topics
  import opened Network
  import opened Causality
  import opened Invariant
  import opened HostSteps
  import opened Served
  import MoteSpec
  import HostSpec

  /** A system and the packets in flight; any of them may be next. */
  datatype Flow = Flow(sys: Sys, air: seq<Msg>)

  datatype Move =
    | Deliver(i: nat)
    | Lose(i: nat)
    | Local(step: Step)   // any step that is not the arrival of a packet

  function SentIn(log: Log): seq<Msg> {
    if log == [] then [] else (if log[0].Sent? then [log[0].m] else []) + SentIn(log[1..])
  }

  function Without(air: seq<Msg>, i: nat): seq<Msg>
    requires i < |air|
  {
    air[..i] + air[i + 1..]
  }

  /** The packets a step has sent. */
  function NewlySent(s: Sys, s': Sys): seq<Msg> {
    if |s.log| <= |s'.log| then SentIn(s'.log[|s.log|..]) else []
  }

  function ArrivalOf(m: Msg): Step {
    if m.dst == Server then UdpReceives(m) else MoteReceives(m)
  }

  predicate IsArrival(step: Step) { step.UdpReceives? || step.MoteReceives? }

  /** The server can only receive while its UDP thread waits. */
  predicate CanArrive(s: Sys, m: Msg) {
    m.dst == Server ==> s.host.udp.Waiting?
  }

  function Next(f: Flow, move: Move): Flow {
    match move
    case Deliver(i) =>
      if i < |f.air| && CanArrive(f.sys, f.air[i]) then
        var s' := Apply(f.sys, ArrivalOf(f.air[i]));
        Flow(s', Without(f.air, i) + NewlySent(f.sys, s'))
      else f
    case Lose(i) => if i < |f.air| then f.(air := Without(f.air, i)) else f
    case Local(step) =>
      if IsArrival(step) then f
      else
        var s' := Apply(f.sys, step);
        Flow(s', f.air + NewlySent(f.sys, s'))
  }

  function After(f: Flow, moves: seq<Move>): Flow {
    if moves == [] then f else Next(After(f, moves[..|moves| - 1]), moves[|moves| - 1])
  }

  function PowerOn(cfg: Config): Flow { Flow(Init(cfg), []) }

  /** A packet arrives, or is lost. */
  predicate Settles(f: Flow, move: Move) {
    match move
    case Deliver(i) => i < |f.air| && CanArrive(f.sys, f.air[i])
    case Lose(i) => i < |f.air|
    case Local(_) => false
  }

  /** A thread of the server executes a statement it has to execute: the UDP thread, the menu
      thread, or an ack thread past its sleep that goes on with its `sendto`. */
  predicate Works(f: Flow, move: Move) {
    var h := f.sys.host;
    move.Local? &&
    match move.step
    case UdpRuns => !h.udp.Waiting?
    case MenuRuns => !h.menu.Prompt?
    case AckReadsPacket => h.g.sending > 0
    case AckReadsDest => h.g.sending > 0
    case AckSends(k) => k < |h.g.reading|
    case _ => false
  }

  /** Timers and the operator; the sleep of an ack thread is a timer. */
  predicate IsSpontaneous(step: Step) {
    step.MotePeriod? || step.MoteAckTimer? || step.MotePingTimer? || step.MenuChooses? || step.AckWakes?
  }

  /** How many packets arrived or were lost in a run. */
  function Settled(f: Flow, moves: seq<Move>): nat {
    if moves == [] then 0
    else
      var before := moves[..|moves| - 1];
      Settled(f, before) + if Settles(After(f, before), moves[|moves| - 1]) then 1 else 0
  }

  // ---------- The measure

  /** A packet weighs more than everything its handler can answer. */
  function Weight(p: Packet): (w: nat)
    ensures 1 <= w <= 4
  {
    if p.mst == HELLO then (if p.option == "init" then 4 else 3)
    else if p.mst == PUBLISH then 4
    else if p.mst in {CONNECT, SUBSCRIBE, PUSH, PINGREQ} then 2
    else 1
  }

  function Total(air: seq<Msg>): nat {
    if air == [] then 0 else Weight(air[0].pkt) + Total(air[1..])
  }

  function Unsent(todo: seq<Send>): nat {
    if todo == [] then 0 else Weight(todo[0].pkt) + Unsent(todo[1..])
  }

  /** What the UDP thread may still send: less than the packet it holds, or its replies. */
  function UdpLoad(udp: HostSpec.Udp): nat {
    match udp
    case Waiting => 0
    case Working(job) => Unsent(job.todo)
    case Testing(m) => Weight(m.pkt) - 1
    case Comparing(m) => Weight(m.pkt) - 1
    case Marking(m) => Weight(m.pkt) - 1
    case Dispatching(m) => Weight(m.pkt) - 1
  }

  /** What the menu thread may still send: a push, unless its slot has been passed. */
  function MenuLoad(t: Table, menu: HostSpec.Menu): nat {
    match menu
    case Prompt => 0
    case Scanning(p, i, job) => Unsent(job.todo) + if Find(t, p.option) < i then 0 else 2
  }

  /** What the ack threads past their sleep may still send: a push each. */
  function AckLoad(g: HostSpec.Globals): nat { 2 * (g.sending + |g.reading|) }

  /** The weight of the packets in the air and of those the server has yet to send. */
  function Load(f: Flow): nat {
    var h := f.sys.host;
    Total(f.air) + UdpLoad(h.udp) + MenuLoad(h.topics, h.menu) + AckLoad(h.g)
  }

  /** The weight a timer or the operator brings in; a menu command and the end of an ack
      thread's sleep are worth one push. */
  function Brought(f: Flow, move: Move): nat {
    if !(move.Local? && IsSpontaneous(move.step)) then 0
    else if move.step.MenuChooses? then (if f.sys.host.menu.Prompt? then 2 else 0)
    else if move.step.AckWakes? then AckLoad(AckWake(f.sys).host.g) - AckLoad(f.sys.host.g)
    else Total(NewlySent(f.sys, Apply(f.sys, move.step)))
  }

  function Injected(f: Flow, moves: seq<Move>): nat {
    if moves == [] then 0
    else
      var before := moves[..|moves| - 1];
      Injected(f, before) + Brought(After(f, before), moves[|moves| - 1])
  }

  // ---------- Sums

  lemma {:induction false} TotalConcat(a: seq<Msg>, b: seq<Msg>)
    ensures Total(a + b) == Total(a) + Total(b)
  {
    if a == [] {
      assert a + b == b;
    } else {
      assert (a + b)[1..] == a[1..] + b;
      TotalConcat(a[1..], b);
    }
  }

  lemma {:induction false} TotalWithout(air: seq<Msg>, i: nat)
    requires i < |air|
    ensures Total(air) == Total(Without(air, i)) + Weight(air[i].pkt)
  {
    assert air == air[..i] + air[i..];
    assert air[i..][1..] == air[i + 1..];
    TotalConcat(air[..i], air[i..]);
    TotalConcat(air[..i], air[i + 1..]);
  }

  lemma {:induction false} SentInConcat(a: Log, b: Log)
    ensures SentIn(a + b) == SentIn(a) + SentIn(b)
  {
    if a == [] {
      assert a + b == b;
    } else {
      var first := if a[0].Sent? then [a[0].m] else [];
      assert (a + b)[0] == a[0] && (a + b)[1..] == a[1..] + b;
      SentInConcat(a[1..], b);
      assert first + (SentIn(a[1..]) + SentIn(b)) == (first + SentIn(a[1..])) + SentIn(b);
    }
  }

  lemma {:induction false} NothingSent(log: Log)
    requires log == [] || (|log| == 1 && !log[0].Sent?)
    ensures SentIn(log) == [] && Total([]) == 0 && Unsent([]) == 0
  {
    if log != [] { assert log[1..] == []; }
  }

  /** What a node sends weighs as much in the air as in its hands. */
  lemma {:induction false} SentByIsUnsent(src: Addr, out: seq<Send>)
    ensures Total(SentIn(SentBy(src, out))) == Unsent(out)
  {
    if out != [] {
      assert SentBy(src, out)[1..] == SentBy(src, out[1..]);
      SentByIsUnsent(src, out[1..]);
    }
  }

  // ---------- Every handler answers with less than it got

  /** A scan finds the topic at most once, so it serves at most one address. */
  lemma {:induction false} ScanUnsent(t: Table, scanned: Table, p: Packet)
    requires WellFormed(t) && scanned <= t
    ensures Unsent(Pushes(scanned, p)) == if Find(t, p.option) < |scanned| then 2 else 0
    ensures |Pushes(scanned, p)| <= 1
  {
    ScanReaches(t, scanned, p);
    var pushes := Pushes(scanned, p);
    if pushes != [] {
      assert pushes[1..] == [];
      assert Weight(Push(p)) == 2;
    }
  }

  lemma {:induction false} ServerAnswers(t: Table, p: Packet, from: Addr)
    requires WellFormed(t)
    ensures Unsent(HostSpec.Replies(t, p, from)) < Weight(p) && |HostSpec.Replies(t, p, from)| <= 2
  {
    hide Pushes, Find, WellFormed;
    var out := HostSpec.Replies(t, p, from);
    assert "response"[0] != "init"[0];
    if p.mst == PUBLISH {
      ScanUnsent(t, PublishSlots(t), p);
      if p.rel { assert out[1..] == Pushes(PublishSlots(t), p); }
    } else if out != [] {
      assert out[1..] == [];
    }
  }

  lemma {:induction false} MoteAnswers(t: Table, p: Packet, from: Addr)
    requires WellFormed(t)
    ensures Unsent(MoteSpec.Replies(t, p, from)) < Weight(p)
  {
    hide Pushes, PublishSlots, WellFormed;
    ServerAnswers(t, p, from);
    if p.mst == PUSH { assert MoteSpec.Replies(t, p, from)[1..] == []; }
  }

  // ---------- The invariant

  ghost predicate MotesTidy(s: Sys) {
    forall id :: 0 <= id < |s.motes| ==> WellFormed(s.motes[id].topics)
  }

  /** The invariant of all runs; packets in the air have been sent. */
  ghost predicate Valid(cfg: Config, f: Flow) {
    Inv(cfg, f.sys) && MotesTidy(f.sys) && forall i :: 0 <= i < |f.air| ==> Sent(f.air[i]) in f.sys.log
  }

  lemma {:induction false} ServerTidy(cfg: Config, s: Sys)
    requires Inv(cfg, s)
    ensures WellFormed(s.host.topics)
  {
    hide Causal, MoteOk, GlobalsOk, UdpOk, MenuOk, TableOk, WellFormed, TableAfter, Requests;
    TableRefinesHistory(Requests(s.log), cfg.serverTopics);
  }

  lemma {:induction false} StepTopics(st: MoteSpec.State, input: MoteSpec.Input)
    requires WellFormed(st.topics)
    ensures WellFormed(MoteSpec.Step(st, input).state.topics)
  {
    hide WellFormed, Register, MoteSpec.Replies, MoteSpec.AfterSends, MoteSpec.TakeAck, MoteSpec.PeriodSends;
    if input.Receive? { RegisterKeepsWellFormed(st.topics, input.pkt.option, input.src); }
  }

  lemma {:induction false} MoteStepTidy(s: Sys, id: nat, before: Log, input: MoteSpec.Input, after: Log)
    requires MotesTidy(s) && id < |s.motes|
    ensures MotesTidy(MoteStep(s, id, before, MoteSpec.Step(s.motes[id], input), after))
  {
    hide WellFormed, MoteSpec.Step;
    StepTopics(s.motes[id], input);
  }

  lemma {:induction false} ApplyTidy(s: Sys, step: Step)
    requires MotesTidy(s)
    ensures MotesTidy(Apply(s, step))
  {
    hide MotesTidy, MoteSpec.Period, MoteSpec.AckTick, MoteSpec.PingTick, MoteSpec.RxCallback, MoteStep, CallbackEvents,
         PeriodEvents;
    match step
    case MotePeriod(id) =>
      if id < |s.motes| { MoteStepTidy(s, id, PeriodEvents(s.motes[id], id), MoteSpec.PeriodTimer, []); }
    case MoteAckTimer(id) =>
      if id < |s.motes| { MoteStepTidy(s, id, [], MoteSpec.AckTimer, []); }
    case MotePingTimer(id) =>
      if id < |s.motes| { MoteStepTidy(s, id, [], MoteSpec.PingTimer, []); }
    case MoteReceives(m) =>
      if m.dst.Mote? && m.dst.id < |s.motes| && Sent(m) in s.log {
        var r := MoteSpec.RxCallback(s.motes[m.dst.id], m.pkt, m.src);
        MoteStepTidy(s, m.dst.id, [Handled(m)], MoteSpec.Receive(m.pkt, m.src), CallbackEvents(r.state, m.dst.id));
      }
    case _ => ServerStepTidy(s, step);
  }

  lemma {:induction false} ServerStepTidy(s: Sys, step: Step)
    requires MotesTidy(s) && !IsNodeStep(step)
    ensures MotesTidy(Apply(s, step))
  {
    hide WellFormed, Completed, CommandPacket, HostSpec.JobStep, HostSpec.Replies, HostSpec.TopicsAfter, SlotPushes;
    assert Apply(s, step).motes == s.motes;
  }

  lemma {:induction false} SentInLog(log: Log)
    ensures forall k :: 0 <= k < |SentIn(log)| ==> Sent(SentIn(log)[k]) in log
  {
    if log != [] {
      SentInLog(log[1..]);
      assert forall e :: e in log[1..] ==> e in log;
    }
  }

  lemma {:induction false} NextIsValid(cfg: Config, f: Flow, move: Move)
    requires Valid(cfg, f)
    ensures Valid(cfg, Next(f, move))
  {
    hide Inv, MotesTidy, Apply;
    if move.Local? || move.Deliver? {
      var step := if move.Local? then move.step
                  else if move.i < |f.air| then ArrivalOf(f.air[move.i]) else UdpRuns;
      ApplyKeeps(cfg, f.sys, step);
      ApplyTidy(f.sys, step);
      LogGrows(f.sys, step);
      SentInLog(Apply(f.sys, step).log[|f.sys.log|..]);
      assert forall e :: e in f.sys.log ==> e in Apply(f.sys, step).log;
    }
  }

  // ---------- The load after each step

  /** A node handles a packet: what it sends is lighter. */
  lemma {:induction false} NodeStepSent(s: Sys, id: nat, before: Log, r: MoteSpec.Result, after: Log)
    requires id < |s.motes| && SentIn(before) == [] && SentIn(after) == []
    ensures Total(NewlySent(s, MoteStep(s, id, before, r, after))) == Unsent(r.out)
  {
    var sent := SentBy(Mote(id), r.out);
    var s' := MoteStep(s, id, before, r, after);
    assert s'.log[|s.log|..] == before + sent + after;
    SentInConcat(before + sent, after);
    SentInConcat(before, sent);
    assert [] + SentIn(sent) + [] == SentIn(sent);
    SentByIsUnsent(Mote(id), r.out);
  }

  lemma {:induction false} CallbackSendsNothing(m: Msg, st: MoteSpec.State, id: nat)
    ensures SentIn([Handled(m)]) == [] && SentIn(CallbackEvents(st, id)) == []
  {
    assert [Handled(m)][1..] == [];
    if CallbackEvents(st, id) != [] { assert CallbackEvents(st, id)[1..] == []; }
  }

  /** The weight in the air, in the server's threads and in the menu falls at every delivery
      and loss. */
  lemma {:induction false} SettlingIsProgress(cfg: Config, f: Flow, move: Move)
    requires Valid(cfg, f) && Settles(f, move)
    ensures Load(Next(f, move)) < Load(f)
  {
    hide Inv, Weight, WellFormed, MoteSpec.Replies, MoteStep, CallbackEvents, Find, MoteSpec.RxCallback;
    var m, rest := f.air[move.i], Without(f.air, move.i);
    TotalWithout(f.air, move.i);
    if move.Deliver? {
      var s := f.sys;
      var s' := Apply(s, ArrivalOf(m));
      assert Sent(m) in s.log;
      TotalConcat(rest, NewlySent(s, s'));
      if m.dst == Server {
        assert s'.log[|s.log|..] == [];
      } else if m.dst.id < |s.motes| {
        var st := s.motes[m.dst.id];
        var r := MoteSpec.RxCallback(st, m.pkt, m.src);
        CallbackSendsNothing(m, r.state, m.dst.id);
        NodeStepSent(s, m.dst.id, [Handled(m)], r, CallbackEvents(r.state, m.dst.id));
        MoteSpec.RxOut(st, m.pkt, m.src);
        MoteAnswers(st.topics, m.pkt, m.src);
        MoteStepHost(s, m.dst.id, [Handled(m)], r, CallbackEvents(r.state, m.dst.id));
      } else {
        assert s'.log[|s.log|..] == [];
      }
    }
  }

  /** A later registration never moves a topic further away. */
  lemma {:induction false} MenuLoadAfter(t: Table, name: string, from: Addr, menu: HostSpec.Menu)
    requires WellFormed(t)
    ensures MenuLoad(Register(t, name, from), menu) <= MenuLoad(t, menu)
  {
    hide Register, WellFormed, Unsent;
    if menu.Scanning? { FindAfterRegister(t, name, from, menu.p.option); }
  }

  /** One statement of a send: the load of the job goes to the air. */
  lemma {:induction false} JobStepLoad(g: HostSpec.Globals, job: HostSpec.Job)
    requires job.todo != []
    ensures var r := HostSpec.JobStep(g, job);
      && Total(SentIn(ActEvents(r.act))) + Unsent(r.job.todo) == Unsent(job.todo)
      && r.g.sending == g.sending && r.g.reading == g.reading
  {
    hide Weight;
    var r := HostSpec.JobStep(g, job);
    if r.act != HostSpec.Quiet { assert ActEvents(r.act)[1..] == []; }
  }

  lemma {:induction false} UdpRunLoad(cfg: Config, f: Flow)
    requires Valid(cfg, f)
    ensures Load(Next(f, Local(UdpRuns))) <= Load(f)
  {
    hide Inv, MotesTidy, Weight, WellFormed, HostSpec.JobStep, HostSpec.Replies, Register, MenuLoad, Unsent;
    ServerTidy(cfg, f.sys);
    var s := f.sys;
    var h, s' := s.host, UdpRun(s);
    var sent := NewlySent(s, s');
    TotalConcat(f.air, sent);
    if h.udp.Working? && h.udp.job.todo != [] {
      var r := HostSpec.JobStep(h.g, h.udp.job);
      assert s'.log[|s.log|..] == ActEvents(r.act);
      JobStepLoad(h.g, h.udp.job);
    } else if h.udp.Dispatching? {
      var m := h.udp.m;
      assert s'.log[|s.log|..] == [Handled(m)];
      NothingSent([Handled(m)]);
      ServerAnswers(h.topics, m.pkt, m.src);
      MenuLoadAfter(h.topics, m.pkt.option, m.src, h.menu);
    } else {
      assert s'.log[|s.log|..] == [];
      NothingSent([]);
    }
  }

  lemma {:induction false} MenuRunLoad(cfg: Config, f: Flow)
    requires Valid(cfg, f)
    ensures Load(Next(f, Local(MenuRuns))) <= Load(f)
  {
    hide Inv, MotesTidy, Weight, WellFormed, HostSpec.JobStep, SlotPushes, Push, UdpLoad, Unsent, Find;
    ServerTidy(cfg, f.sys);
    var s := f.sys;
    var h, s' := s.host, MenuRun(s);
    TotalConcat(f.air, NewlySent(s, s'));
    if h.menu.Scanning? {
      var p, i, job := h.menu.p, h.menu.i, h.menu.job;
      if job.todo != [] {
        var r := HostSpec.JobStep(h.g, job);
        assert s'.log[|s.log|..] == ActEvents(r.act);
        JobStepLoad(h.g, job);
      } else {
        assert s'.log[|s.log|..] == [];
        NothingSent([]);
        if i < |h.topics| { SlotLoad(h.topics, i, p); }
      }
    } else {
      assert s'.log[|s.log|..] == [];
    }
  }

  lemma {:induction false} SlotLoad(t: Table, i: nat, p: Packet)
    requires WellFormed(t) && i < |t|
    ensures Unsent(SlotPushes(t[i], p)) == 0 || (Unsent(SlotPushes(t[i], p)) == 2 && Find(t, p.option) == i)
    ensures |SlotPushes(t[i], p)| <= 1
  {
    hide WellFormed, SlotPushes, Find;
    var pushes := SlotPushes(t[i], p);
    SlotIsServed(t, i, p);
    if pushes != [] {
      assert pushes[1..] == [];
      assert Weight(Push(p)) == 2;
    }
  }

  /** A command brings in one push at most. */
  lemma {:induction false} ChoiceLoad(f: Flow, c: Command)
    ensures Load(Next(f, Local(MenuChooses(c)))) == Load(f) + Brought(f, Local(MenuChooses(c)))
  {
    hide Weight, CommandPacket, UdpLoad, Find, AckLoad;
    var s := f.sys;
    var s' := MenuChoose(s, c);
    TotalConcat(f.air, NewlySent(s, s'));
    if s.host.menu.Prompt? {
      assert s'.log[|s.log|..] == [MenuChose(c)];
      NothingSent([MenuChose(c)]);
    } else {
      assert s'.log[|s.log|..] == [];
      NothingSent([]);
    }
  }

  /** A step of the timers or the operator adds what it brings in. */
  lemma {:induction false} SpontaneousLoad(f: Flow, step: Step)
    requires IsSpontaneous(step)
    ensures Load(Next(f, Local(step))) == Load(f) + Brought(f, Local(step))
  {
    hide Weight, Unsent, MoteStep, MoteSpec.Period, MoteSpec.AckTick, MoteSpec.PingTick, MenuChoose, MenuLoad, UdpLoad,
         Total;
    if step.MenuChooses? {
      ChoiceLoad(f, step.c);
    } else {
      TotalConcat(f.air, NewlySent(f.sys, Apply(f.sys, step)));
      if step.AckWakes? { assert AckWake(f.sys).log[|f.sys.log|..] == []; NothingSent([]); }
      else { var es := NodeStepIsSilent(f.sys, step); }
    }
  }

  lemma {:induction false} AckReadLoad(f: Flow, half: HostSpec.Half)
    ensures var s' := AckRead(f.sys, half);
      && NewlySent(f.sys, s') == [] && s'.host == f.sys.host.(g := s'.host.g)
      && AckLoad(s'.host.g) == AckLoad(f.sys.host.g)
  {
    assert AckRead(f.sys, half).log[|f.sys.log|..] == [];
  }

  lemma {:induction false} AckSendLoad(f: Flow, k: nat)
    requires k < |f.sys.host.g.reading|
    requires var m := Completed(f.sys.host.g, f.sys.host.g.reading[k]); m.Some? && m.value.pkt.mst == PUSH
    ensures var s' := AckSend(f.sys, k);
      && Total(NewlySent(f.sys, s')) == 2 && s'.host == f.sys.host.(g := s'.host.g)
      && AckLoad(s'.host.g) == AckLoad(f.sys.host.g) - 2
  {
    hide Completed;
    var m := Completed(f.sys.host.g, f.sys.host.g.reading[k]).value;
    var es := AckSend(f.sys, k).log[|f.sys.log|..];
    assert es == [Sent(m)];
    assert es[1..] == [];
    assert SentIn(es) == [m];
    assert [m][1..] == [];
  }

  /** The ack threads' statements move load to the air, no more. */
  lemma {:induction false} AckWorkLoad(cfg: Config, f: Flow, move: Move)
    requires Valid(cfg, f) && Works(f, move) && move.step != UdpRuns && move.step != MenuRuns
    ensures Load(Next(f, move)) == Load(f)
  {
    hide Inv, MotesTidy, Weight, Unsent, Completed, AckRead, AckSend, MenuLoad, UdpLoad, NewlySent, AckLoad, Total;
    AckThreadsReady(cfg, f.sys);
    var g := f.sys.host.g;
    TotalConcat(f.air, NewlySent(f.sys, Apply(f.sys, move.step)));
    NothingSent([]);
    match move.step
    case AckReadsPacket => AckReadLoad(f, HostSpec.HasPacket(g.packetAck.value));
    case AckReadsDest => AckReadLoad(f, HostSpec.HasDest(g.destAddrAck.value));
    case AckSends(k) => AckSendLoad(f, k);
    case _ =>
  }

  /** A step that is not enabled changes nothing. */
  lemma {:induction false} IdleLoad(f: Flow, step: Step)
    requires !IsSpontaneous(step) && !IsArrival(step) && !Works(f, Local(step))
    ensures Next(f, Local(step)) == f
  {
    assert Apply(f.sys, step) == f.sys;
    assert f.sys.log[|f.sys.log|..] == [];
    assert f.air + [] == f.air;
  }

  // ---------- The results

  /** In any run without duplication, the deliveries and losses, weighed with what is still
      in the air or about to be sent, never exceed what there was plus the weight of what
      the timers and the operator brought in. */
  lemma {:induction false} DeliveriesAreBounded(cfg: Config, f: Flow, moves: seq<Move>)
    requires Valid(cfg, f)
    ensures Valid(cfg, After(f, moves))
    ensures Settled(f, moves) + Load(After(f, moves)) <= Load(f) + Injected(f, moves)
  {
    hide Valid, Next, Load, Brought, Settles;
    if moves != [] {
      var before, last := moves[..|moves| - 1], moves[|moves| - 1];
      DeliveriesAreBounded(cfg, f, before);
      NextIsValid(cfg, After(f, before), last);
      OneMove(cfg, After(f, before), last);
    }
  }

  lemma {:induction false} OneMove(cfg: Config, f: Flow, move: Move)
    requires Valid(cfg, f)
    ensures Load(Next(f, move)) + (if Settles(f, move) then 1 else 0) <= Load(f) + Brought(f, move)
  {
    hide Valid, Load, Apply;
    if Settles(f, move) { SettlingIsProgress(cfg, f, move); }
    else if move.Local? && !IsArrival(move.step) {
      if IsSpontaneous(move.step) { SpontaneousLoad(f, move.step); }
      else if Works(f, move) { WorkLoad(cfg, f, move); }
      else { IdleLoad(f, move.step); }
    }
  }

  lemma {:induction false} WorkLoad(cfg: Config, f: Flow, move: Move)
    requires Valid(cfg, f) && Works(f, move)
    ensures Load(Next(f, move)) <= Load(f)
  {
    hide Valid, Load, Next;
    if move == Local(UdpRuns) { UdpRunLoad(cfg, f); }
    else if move == Local(MenuRuns) { MenuRunLoad(cfg, f); }
    else { AckWorkLoad(cfg, f, move); }
  }

  /** So from power-on no run without duplication delivers more than was ever brought in by
      the timers and the operator, by weight. */
  lemma {:induction false} DeliveriesSincePowerOn(cfg: Config, moves: seq<Move>)
    ensures Settled(PowerOn(cfg), moves) <= Injected(PowerOn(cfg), moves)
  {
    hide Settled, Injected, After, Valid;
    PowerOnIsValid(cfg);
    DeliveriesAreBounded(cfg, PowerOn(cfg), moves);
  }

  lemma {:induction false} PowerOnIsValid(cfg: Config)
    ensures Valid(cfg, PowerOn(cfg)) && Load(PowerOn(cfg)) == 0
  {
    hide Inv;
    InitKeeps(cfg);
    EmptyIsWellFormed(cfg.moteTopics);
  }

  lemma {:induction false} EmptyIsWellFormed(n: nat)
    ensures WellFormed(EmptyTable(n))
  {
  }

  /** These runs are runs of the whole system: what is bounded here is what
      `HostSteps.Reachable` and all that follows from it speak of. */
  lemma {:induction false} FlowsAreRuns(cfg: Config, moves: seq<Move>)
    ensures CanReach(cfg, After(PowerOn(cfg), moves).sys)
  {
    hide Apply, Leads;
    if moves == [] {
      StandStill(Init(cfg));
    } else {
      var before, last := After(PowerOn(cfg), moves[..|moves| - 1]), moves[|moves| - 1];
      FlowsAreRuns(cfg, moves[..|moves| - 1]);
      if last.Deliver? && last.i < |before.air| {
        var s := Follow(Init(cfg), before.sys, ArrivalOf(before.air[last.i]));
      } else if last.Local? {
        var s := Follow(Init(cfg), before.sys, last.step);
      }
    }
  }

  // ---------- Quiescence, statement by statement

  /** The statements a thread has left in its job. */
  function JobChores(job: HostSpec.Job): nat {
    if job.todo == [] then 0 else HostSpec.Rank(job.pc) + 1 + 7 * (|job.todo| - 1)
  }

  function UdpChores(udp: HostSpec.Udp): nat {
    match udp
    case Waiting => 0
    case Working(job) => 1 + JobChores(job)
    case Dispatching(_) => 17
    case Marking(_) => 18
    case Comparing(_) => 19
    case Testing(_) => 20
  }

  function MenuChores(n: nat, menu: HostSpec.Menu): nat {
    match menu
    case Prompt => 0
    case Scanning(_, i, job) => 1 + JobChores(job) + if i < n then 8 * (n - i) else 0
  }

  function AckChores(g: HostSpec.Globals): nat { 2 * g.sending + |g.reading| }

  function Chores(s: Sys): nat {
    UdpChores(s.host.udp) + MenuChores(|s.host.topics|, s.host.menu) + AckChores(s.host.g)
  }

  function Measure(f: Flow): nat { 21 * Load(f) + Chores(f.sys) }

  /** Nothing is in flight and no thread of the server has anything to do. */
  predicate Quiet(f: Flow) {
    var h := f.sys.host;
    f.air == [] && h.udp.Waiting? && h.menu.Prompt? && h.g.sending == 0 && h.g.reading == []
  }

  lemma {:induction false} UdpWorkChores(cfg: Config, f: Flow)
    requires Inv(cfg, f.sys) && !f.sys.host.udp.Waiting?
    ensures Chores(UdpRun(f.sys)) < Chores(f.sys)
  {
    hide Inv, WellFormed, HostSpec.Replies, Register;
    ServerTidy(cfg, f.sys);
    var h := f.sys.host;
    if h.udp.Dispatching? { ServerAnswers(h.topics, h.udp.m.pkt, h.udp.m.src); }
  }

  lemma {:induction false} MenuWorkChores(cfg: Config, f: Flow)
    requires Inv(cfg, f.sys) && !f.sys.host.menu.Prompt?
    ensures Chores(MenuRun(f.sys)) < Chores(f.sys)
  {
    hide Inv, WellFormed, SlotPushes, UdpChores;
    ServerTidy(cfg, f.sys);
    var h := f.sys.host;
    if h.menu.i < |h.topics| { SlotLoad(h.topics, h.menu.i, h.menu.p); }
  }

  lemma {:induction false} AckWorkChores(cfg: Config, f: Flow, move: Move)
    requires Inv(cfg, f.sys) && Works(f, move) && move.step != UdpRuns && move.step != MenuRuns
    ensures Chores(Apply(f.sys, move.step)) < Chores(f.sys)
  {
    hide Inv, Completed, UdpChores, MenuChores;
    AckThreadsReady(cfg, f.sys);
  }

  lemma {:induction false} ArrivalChores(f: Flow, move: Move)
    requires Settles(f, move)
    ensures Chores(Next(f, move).sys) <= Chores(f.sys) + 20
  {
    hide MoteStep, MoteSpec.RxCallback, CallbackEvents, MenuChores;
    if move.Deliver? {
      var m := f.air[move.i];
      if m.dst.Mote? { var es := NodeStepIsSilent(f.sys, MoteReceives(m)); }
    }
  }

  lemma {:induction false} EveryMoveIsProgress(cfg: Config, f: Flow, move: Move)
    requires Valid(cfg, f) && (Settles(f, move) || Works(f, move))
    ensures Measure(Next(f, move)) < Measure(f)
  {
    hide Load, Chores, UdpRun, MenuRun, Inv, MotesTidy, NewlySent;
    if Settles(f, move) {
      SettlingIsProgress(cfg, f, move);
      ArrivalChores(f, move);
    } else {
      WorkLoad(cfg, f, move);
      if move == Local(UdpRuns) { UdpWorkChores(cfg, f); }
      else if move == Local(MenuRuns) { MenuWorkChores(cfg, f); }
      else { AckWorkChores(cfg, f, move); }
    }
  }

  /** A run with timers and operator off: every move is an arrival, a loss, or a statement of
      a thread that has one to execute. */
  ghost predicate IsRun(f: Flow, moves: seq<Move>) {
    forall k :: 0 <= k < |moves| ==>
      Settles(After(f, moves[..k]), moves[k]) || Works(After(f, moves[..k]), moves[k])
  }

  lemma {:induction false} RunPrefix(f: Flow, moves: seq<Move>, move: Move)
    ensures IsRun(f, moves + [move]) <==>
      IsRun(f, moves) && (Settles(After(f, moves), move) || Works(After(f, moves), move))
  {
    hide After, Settles, Works;
    var all := moves + [move];
    assert forall k :: 0 <= k < |moves| ==> all[..k] == moves[..k] && all[k] == moves[k];
    assert all[..|moves|] == moves && all[|moves|] == move;
  }

  /** In whatever order packets arrive or are lost and the server's threads execute their
      statements, no run is longer than the measure of its start. */
  lemma {:induction false} RunsAreBounded(cfg: Config, f: Flow, moves: seq<Move>)
    requires Valid(cfg, f) && IsRun(f, moves)
    ensures Valid(cfg, After(f, moves)) && |moves| + Measure(After(f, moves)) <= Measure(f)
  {
    hide Valid, Next, Measure, Settles, Works, IsRun;
    if moves != [] {
      var before, last := moves[..|moves| - 1], moves[|moves| - 1];
      assert moves == before + [last];
      RunPrefix(f, before, last);
      RunsAreBounded(cfg, f, before);
      EveryMoveIsProgress(cfg, After(f, before), last);
      NextIsValid(cfg, After(f, before), last);
    }
  }

  /** Something other than a loss is possible. */
  ghost predicate CanGoOn(f: Flow) {
    exists move: Move :: !move.Lose? && (Settles(f, move) || Works(f, move))
  }

  /** Without any loss, some packet can arrive or some thread can go on if and only if not all
      is quiet. */
  lemma {:induction false} QuietExactly(f: Flow)
    ensures Quiet(f) <==> !CanGoOn(f)
  {
    var h := f.sys.host;
    if !Quiet(f) {
      if !h.udp.Waiting? { assert Works(f, Local(UdpRuns)); }
      else if f.air != [] { assert Settles(f, Deliver(0)); }
      else if !h.menu.Prompt? { assert Works(f, Local(MenuRuns)); }
      else if h.g.sending > 0 { assert Works(f, Local(AckReadsPacket)); }
      else { assert Works(f, Local(AckSends(0))); }
    }
  }

  /** Every run comes to rest: it can be continued, without losing a packet, to one that ends
      with nothing in flight and nothing to do, and every way of continuing it gets there
      within the measure of its start (`RunsAreBounded`). */
  lemma {:induction false} EveryRunEndsQuiet(cfg: Config, f: Flow, moves: seq<Move>) returns (all: seq<Move>)
    requires Valid(cfg, f) && IsRun(f, moves)
    ensures moves <= all && IsRun(f, all) && |all| <= Measure(f) && Quiet(After(f, all))
    ensures forall k :: |moves| <= k < |all| ==> !all[k].Lose?
    decreases Measure(f) - |moves|
  {
    hide Valid, Measure, Settles, Works, IsRun, Next;
    RunsAreBounded(cfg, f, moves);
    QuietExactly(After(f, moves));
    if Quiet(After(f, moves)) {
      all := moves;
    } else {
      var move: Move :| !move.Lose? && (Settles(After(f, moves), move) || Works(After(f, moves), move));
      RunPrefix(f, moves, move);
      RunsAreBounded(cfg, f, moves + [move]);
      all := EveryRunEndsQuiet(cfg, f, moves + [move]);
    }
  }
}
