/** The alarms of every run, exactly. */
module Alarms {
  import opened Packets
  import opened Numerals
  import opened Topics
  import opened Network
  import opened Causality
  import opened Invariant
  import opened HostSteps
  import opened Served
  import HostSpec
  import MoteHistory
  import MoteSpec

  predicate HandledBy(e: Event, id: nat) { e.Handled? && e.m.dst == Mote(id) }

  /** The text of the last push a node handled. */
  function LastText(log: Log, id: nat): Option<string> {
    if log == [] then None
    else
      var last := log[|log| - 1];
      if HandledBy(last, id) && last.m.pkt.mst == PUSH then Some(last.m.pkt.payload)
      else LastText(log[..|log| - 1], id)
  }

  /** The readings an alarm reported, in order. */
  function Raised(log: Log, id: nat): seq<int> {
    if log == [] then []
    else
      var last := log[|log| - 1];
      Raised(log[..|log| - 1], id) + if last.AlarmRaised? && last.id == id then [last.reading] else []
  }

  /** The readings it should report: after every packet it handles, whatever that was, the
      number in the text last pushed to it, if that is 10 or more. */
  function DueReadings(log: Log, id: nat): seq<int> {
    if log == [] then []
    else
      var text := LastText(log, id);
      DueReadings(log[..|log| - 1], id) +
      if HandledBy(log[|log| - 1], id) && text.Some? && Atoi(text.value) >= 10 then [Atoi(text.value)] else []
  }

  ghost predicate AlarmOk(cfg: Config, log: Log, id: nat, st: MoteSpec.State)
    requires id < |cfg.kinds|
  {
    && st.kind == cfg.kinds[id]
    && st.pushed == LastText(log, id)
    && Raised(log, id) == (if st.kind == MoteSpec.Alarm then DueReadings(log, id) else [])
  }

  ghost predicate AlarmsOk(cfg: Config, s: Sys) {
    && |s.motes| == |cfg.kinds|
    && forall id :: 0 <= id < |s.motes| ==> AlarmOk(cfg, s.log, id, s.motes[id])
  }

  predicate Unconcerned(e: Event, id: nat) {
    !HandledBy(e, id) && !(e.AlarmRaised? && e.id == id)
  }

  lemma {:induction false} UnconcernedEvents(log: Log, es: Log, id: nat)
    requires forall k :: 0 <= k < |es| ==> Unconcerned(es[k], id)
    ensures LastText(log + es, id) == LastText(log, id) && Raised(log + es, id) == Raised(log, id)
    ensures DueReadings(log + es, id) == DueReadings(log, id)
  {
    hide Atoi;
    if es == [] {
      assert log + es == log;
    } else {
      UnconcernedEvents(log, es[..|es| - 1], id);
      assert (log + es)[..|log + es| - 1] == log + es[..|es| - 1];
    }
  }

  /** A step of node n that handles nothing, or of the server. */
  lemma {:induction false} OthersAlarms(cfg: Config, s: Sys, s': Sys, es: Log)
    requires AlarmsOk(cfg, s) && s'.log == s.log + es && |s'.motes| == |s.motes|
    requires forall id :: 0 <= id < |s.motes| ==>
      s'.motes[id].kind == s.motes[id].kind && s'.motes[id].pushed == s.motes[id].pushed
    requires forall id: nat, k :: 0 <= k < |es| ==> Unconcerned(es[k], id)
    ensures AlarmsOk(cfg, s')
  {
    hide LastText, Raised, DueReadings, Unconcerned;
    forall id | 0 <= id < |s.motes| ensures AlarmOk(cfg, s'.log, id, s'.motes[id]) {
      assert AlarmOk(cfg, s.log, id, s.motes[id]);
      UnconcernedEvents(s.log, es, id);
    }
  }

  lemma {:induction false} TimerPushed(st: MoteSpec.State)
    ensures MoteSpec.Period(st).state.pushed == st.pushed && MoteSpec.Period(st).state.kind == st.kind
    ensures MoteSpec.AckTick(st).state.pushed == st.pushed && MoteSpec.AckTick(st).state.kind == st.kind
    ensures MoteSpec.PingTick(st).state.pushed == st.pushed && MoteSpec.PingTick(st).state.kind == st.kind
  {
    hide MoteSpec.AfterSends, MoteSpec.PeriodSends;
  }

  /** What a timer adds to the log concerns no alarm. */
  lemma {:induction false} TimerAlarms(cfg: Config, s: Sys, id: nat, before: Log, r: MoteSpec.Result)
    requires AlarmsOk(cfg, s) && id < |s.motes|
    requires r.state.pushed == s.motes[id].pushed && r.state.kind == s.motes[id].kind
    requires before == [] || (|before| == 1 && before[0].GasPublished?)
    ensures AlarmsOk(cfg, MoteStep(s, id, before, r, []))
  {
    hide AlarmsOk;
    var es := before + SentBy(Mote(id), r.out);
    assert s.log + es == s.log + before + SentBy(Mote(id), r.out) + [];
    SameSize(cfg, s);
    OthersAlarms(cfg, s, MoteStep(s, id, before, r, []), es);
  }

  lemma {:induction false} SameSize(cfg: Config, s: Sys)
    requires AlarmsOk(cfg, s)
    ensures |s.motes| == |cfg.kinds|
  {
  }

  /** The alarm's own callback: it looks at the last text pushed, this packet included. */
  lemma {:induction false} OwnCallback(cfg: Config, log: Log, id: nat, st: MoteSpec.State, m: Msg)
    requires id < |cfg.kinds| && AlarmOk(cfg, log, id, st) && m.dst == Mote(id)
    ensures var r := MoteSpec.RxCallback(st, m.pkt, m.src);
      AlarmOk(cfg, log + [Handled(m)] + SentBy(Mote(id), r.out) + CallbackEvents(r.state, id), id, r.state)
  {
    hide MoteSpec.RxCallback, Atoi;
    var r := MoteSpec.RxCallback(st, m.pkt, m.src);
    var log1 := log + [Handled(m)];
    assert log1[..|log|] == log;
    MoteHistory.PushedStep(st, MoteSpec.Receive(m.pkt, m.src));
    MoteHistory.ConnectedStep(st, MoteSpec.Receive(m.pkt, m.src));
    assert MoteSpec.Step(st, MoteSpec.Receive(m.pkt, m.src)) == r;
    UnconcernedEvents(log1, SentBy(Mote(id), r.out), id);
    var log2 := log1 + SentBy(Mote(id), r.out);
    ReportsIfDue(log, log1, log2, id, r.state, m);
  }

  /** Handling a packet adds the reading that is due after it, if one is. */
  lemma {:induction false} DueAfter(log: Log, m: Msg, id: nat)
    requires m.dst == Mote(id)
    ensures var text := LastText(log + [Handled(m)], id);
      DueReadings(log + [Handled(m)], id) ==
      DueReadings(log, id) + if text.Some? && Atoi(text.value) >= 10 then [Atoi(text.value)] else []
    ensures Raised(log + [Handled(m)], id) == Raised(log, id)
  {
    hide Atoi, LastText;
    assert (log + [Handled(m)])[..|log|] == log;
    assert Raised(log + [Handled(m)], id) == Raised(log, id) + [];
  }

  /** The bell, or the light, adds what it reported and leaves the rest alone. */
  lemma {:induction false} ReportAfter(log: Log, e: Event, id: nat)
    requires !HandledBy(e, id)
    ensures LastText(log + [e], id) == LastText(log, id) && DueReadings(log + [e], id) == DueReadings(log, id)
    ensures Raised(log + [e], id) == Raised(log, id) + if e.AlarmRaised? && e.id == id then [e.reading] else []
  {
    hide Atoi;
    assert (log + [e])[..|log|] == log;
    assert DueReadings(log, id) + [] == DueReadings(log, id);
  }

  lemma {:induction false} ReportsIfDue(log: Log, log1: Log, log2: Log, id: nat, st: MoteSpec.State, m: Msg)
    requires log1 == log + [Handled(m)] && m.dst == Mote(id) && st.pushed == LastText(log1, id)
    requires Raised(log, id) == if st.kind == MoteSpec.Alarm then DueReadings(log, id) else []
    requires LastText(log2, id) == LastText(log1, id) && Raised(log2, id) == Raised(log1, id)
    requires DueReadings(log2, id) == DueReadings(log1, id)
    ensures var log3 := log2 + CallbackEvents(st, id);
      && LastText(log3, id) == LastText(log1, id)
      && Raised(log3, id) == if st.kind == MoteSpec.Alarm then DueReadings(log3, id) else []
  {
    hide Atoi, LastText, Raised, DueReadings;
    DueAfter(log, m, id);
    var es := CallbackEvents(st, id);
    if es == [] {
      assert log2 + es == log2;
    } else {
      assert es == [es[0]];
      ReportAfter(log2, es[0], id);
    }
  }

  lemma {:induction false} CallbackAlarms(cfg: Config, s: Sys, m: Msg)
    requires AlarmsOk(cfg, s)
    ensures AlarmsOk(cfg, MoteReceive(s, m))
  {
    hide MoteSpec.RxCallback, AlarmOk, CallbackEvents;
    if m.dst.Mote? && m.dst.id < |s.motes| && Sent(m) in s.log {
      var id, s' := m.dst.id, MoteReceive(s, m);
      var r := MoteSpec.RxCallback(s.motes[id], m.pkt, m.src);
      var es := [Handled(m)] + SentBy(Mote(id), r.out) + CallbackEvents(r.state, id);
      assert s.log + es == s'.log;
      forall other | 0 <= other < |s.motes| ensures AlarmOk(cfg, s'.log, other, s'.motes[other]) {
        assert AlarmOk(cfg, s.log, other, s.motes[other]);
        if other == id {
          OwnCallback(cfg, s.log, id, s.motes[id], m);
        } else {
          AnotherCallback(cfg, s.log, other, s.motes[other], m, r);
        }
      }
    }
  }

  lemma {:induction false} AnotherCallback(
    cfg: Config, log: Log, id: nat, st: MoteSpec.State, m: Msg, r: MoteSpec.Result)
    requires id < |cfg.kinds| && AlarmOk(cfg, log, id, st) && m.dst.Mote? && m.dst.id != id
    ensures AlarmOk(cfg, log + [Handled(m)] + SentBy(m.dst, r.out) + CallbackEvents(r.state, m.dst.id), id, st)
  {
    hide LastText, Raised, DueReadings;
    var es := [Handled(m)] + SentBy(m.dst, r.out) + CallbackEvents(r.state, m.dst.id);
    assert log + es == log + [Handled(m)] + SentBy(m.dst, r.out) + CallbackEvents(r.state, m.dst.id);
    UnconcernedEvents(log, es, id);
  }

  lemma {:induction false} ServerAlarms(cfg: Config, s: Sys, step: Step) returns (es: Log)
    requires !IsNodeStep(step)
    ensures Apply(s, step).motes == s.motes && Apply(s, step).log == s.log + es
    ensures forall id: nat, k :: 0 <= k < |es| && !(es[k].Handled? && es[k].m.dst.Mote?) ==> Unconcerned(es[k], id)
    ensures s.host.udp.Dispatching? && step == UdpRuns ==> es == [Handled(s.host.udp.m)]
    ensures !(s.host.udp.Dispatching? && step == UdpRuns) ==>
      forall k :: 0 <= k < |es| ==> !es[k].Handled?
  {
    hide CommandPacket, Completed, HostSpec.JobStep, HostSpec.Replies, HostSpec.TopicsAfter, SlotPushes;
    LogGrows(s, step);
    es := Apply(s, step).log[|s.log|..];
    assert s.log + es == Apply(s, step).log;
  }

  lemma {:induction false} ApplyAlarms(cfg: Config, s: Sys, step: Step)
    requires Inv(cfg, s) && AlarmsOk(cfg, s)
    ensures AlarmsOk(cfg, Apply(s, step))
  {
    hide Inv, AlarmsOk, MoteSpec.Period, MoteSpec.AckTick, MoteSpec.PingTick, MoteReceive, MoteStep;
    match step
    case MotePeriod(id) =>
      if id < |s.motes| {
        TimerPushed(s.motes[id]);
        TimerAlarms(cfg, s, id, PeriodEvents(s.motes[id], id), MoteSpec.Period(s.motes[id]));
      }
    case MoteAckTimer(id) =>
      if id < |s.motes| {
        TimerPushed(s.motes[id]);
        TimerAlarms(cfg, s, id, [], MoteSpec.AckTick(s.motes[id]));
      }
    case MotePingTimer(id) =>
      if id < |s.motes| {
        TimerPushed(s.motes[id]);
        TimerAlarms(cfg, s, id, [], MoteSpec.PingTick(s.motes[id]));
      }
    case MoteReceives(m) => CallbackAlarms(cfg, s, m);
    case _ =>
      var es := ServerAlarms(cfg, s, step);
      if s.host.udp.Dispatching? { DispatchedToServer(cfg, s); }
      OthersAlarms(cfg, s, Apply(s, step), es);
  }

  lemma {:induction false} DispatchedToServer(cfg: Config, s: Sys)
    requires Inv(cfg, s) && s.host.udp.Dispatching?
    ensures s.host.udp.m.dst == Server
  {
    hide Causal, MoteOk, GlobalsOk, MenuOk, TableOk, TableAfter, Requests;
  }

  lemma {:induction false} InitAlarms(cfg: Config)
    ensures AlarmsOk(cfg, Init(cfg))
  {
  }

  /** In every run every alarm has gone off at exactly those callbacks after which the text
      last pushed to it reads 10 or more, with that reading, and no other node ever. */
  lemma {:induction false} AlarmsAreExact(cfg: Config, steps: seq<Step>)
    ensures var s := Exec(cfg, steps);
      |s.motes| == |cfg.kinds| &&
      forall id :: 0 <= id < |s.motes| ==>
        && s.motes[id].pushed == LastText(s.log, id)
        && Raised(s.log, id) == if cfg.kinds[id] == MoteSpec.Alarm then DueReadings(s.log, id) else []
  {
    hide Apply, LastText, Raised, DueReadings;
    AlarmsReachable(cfg, steps);
    forall id | 0 <= id < |Exec(cfg, steps).motes|
      ensures AlarmOk(cfg, Exec(cfg, steps).log, id, Exec(cfg, steps).motes[id]) {}
  }

  lemma {:induction false} AlarmsReachable(cfg: Config, steps: seq<Step>)
    ensures AlarmsOk(cfg, Exec(cfg, steps))
  {
    hide Inv, Apply, AlarmsOk;
    if steps == [] {
      InitAlarms(cfg);
    } else {
      AlarmsReachable(cfg, steps[..|steps| - 1]);
      Reachable(cfg, steps[..|steps| - 1]);
      ApplyAlarms(cfg, Exec(cfg, steps[..|steps| - 1]), steps[|steps| - 1]);
    }
  }
}
