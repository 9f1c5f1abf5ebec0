/** The server's flag `ackRcv`. Where only the UDP thread ever sends a reliable packet, which
    is so when no light is installed, the flag is exactly the history of PUSHACK packets.
    `Limits.FlagMeansPushAckExactly` shows that no other installation has that. */
module ServerFlag {
  import opened Packets
  import opened Topics
  import opened Network
  import opened Causality
  import opened Invariant
  import opened HostSteps
  import opened Guarantees
  import opened Served
  import HostSpec
  import MoteSpec

  /** A PUSHACK was handled and no reliable packet was passed to `sendPacket` since. */
  predicate PushAcked(log: Log) {
    if log == [] then false
    else
      var last := log[|log| - 1];
      if last.Given? && last.m.pkt.rel then false
      else if last.Handled? && last.m.dst == Server && last.m.pkt.mst == PUSHACK then true
      else PushAcked(log[..|log| - 1])
  }

  /** The UDP thread is about to dispatch a PUSHACK. */
  predicate PushAckAtHand(udp: HostSpec.Udp) {
    udp.Dispatching? && udp.m.pkt.mst == PUSHACK
  }

  /** `ackRcv` says of a push that it was acknowledged, and a PUSHACK came since that push. */
  ghost predicate FlagIsTrue(s: Sys) {
    s.host.g.ackTypeWanted == PUSHACK && s.host.g.ackRcv ==> PushAcked(s.log) || PushAckAtHand(s.host.udp)
  }

  predicate HasLight(cfg: Config) {
    MoteSpec.Light in cfg.kinds
  }

  // ---------- Without a light the menu thread has nothing to send

  lemma {:induction false} MenuHasNoPush(cfg: Config, s: Sys)
    requires Inv(cfg, s) && MenuServed(s.host.topics, s.host.menu) && !HasLight(cfg)
    ensures s.host.menu.Scanning? ==> s.host.menu.job.todo == []
  {
    hide Causal, MoteOk, GlobalsOk, UdpOk, TableOk, TableAfter, Requests, HostMay, MoteSpec.TopicOf, AllServed;
    if s.host.menu.Scanning? && s.host.menu.job.todo != [] {
      var send := s.host.menu.job.todo[0];
      MenuIsNoGas(cfg, s, 0);
      assert HostMay(s.log, send.pkt, send.dst);
      PushIsPushOf(s.log, send.pkt, send.dst);
      assert send.pkt.option == s.host.menu.p.option;
      SubscribersKind(cfg, s.log, send.pkt.option, send.dst);
      TopicsOfKinds(cfg.kinds[send.dst.id]);
      assert false;
    }
  }

  // ---------- The invariant

  ghost predicate FlagInv(s: Sys) {
    var g, udp := s.host.g, s.host.udp;
    && (udp.Comparing? ==> !g.ackRcv)
    && (udp.Marking? ==> !g.ackRcv && udp.m.pkt.mst == g.ackTypeWanted)
    && (udp.Working? && udp.job.pc.SetWanted? ==> !g.ackRcv && !PushAcked(s.log))
    && (g.ackTypeWanted == PUSHACK ==> (g.ackRcv <==> PushAcked(s.log) || PushAckAtHand(udp)))
  }

  lemma {:induction false} SilentFlag(log: Log, es: Log)
    requires Silent(es)
    ensures PushAcked(log + es) <==> PushAcked(log)
  {
    if es == [] {
      assert log + es == log;
    } else {
      var init := es[..|es| - 1];
      assert Silent(init);
      SilentFlag(log, init);
      assert (log + es)[..|log + es| - 1] == log + init;
    }
  }

  lemma {:induction false} FlagAfter(log: Log, e: Event)
    ensures PushAcked(log + [e]) <==>
      !(e.Given? && e.m.pkt.rel) &&
      ((e.Handled? && e.m.dst == Server && e.m.pkt.mst == PUSHACK) || PushAcked(log))
  {
    assert (log + [e])[..|log|] == log;
  }

  lemma {:induction false} UdpWorkFlags(s: Sys)
    requires FlagInv(s) && s.host.udp.Working? && s.host.udp.job.todo != []
    requires !s.host.udp.job.pc.Enter? && !s.host.udp.job.pc.Transmit? ==> s.host.udp.job.todo[0].pkt.rel
    requires s.host.udp.job.todo[0].pkt.rel ==> s.host.udp.job.todo[0].pkt.mst == PUSH
    ensures FlagInv(UdpRun(s))
  {
    hide PushAcked;
    var job := s.host.udp.job;
    var m := Msg(Server, job.todo[0].dst, job.todo[0].pkt);
    assert s.log + [] == s.log;
    FlagAfter(s.log, Given(m));
    FlagAfter(s.log, Sent(m));
  }

  lemma {:induction false} UdpJobShape(cfg: Config, s: Sys)
    requires Inv(cfg, s) && s.host.udp.Working? && s.host.udp.job.todo != []
    ensures !s.host.udp.job.pc.Enter? && !s.host.udp.job.pc.Transmit? ==> s.host.udp.job.todo[0].pkt.rel
    ensures s.host.udp.job.todo[0].pkt.rel ==> s.host.udp.job.todo[0].pkt.mst == PUSH
  {
    hide Causal, MoteOk, GlobalsOk, MenuOk, TableOk, TableAfter, Requests, HostMay;
    var send := s.host.udp.job.todo[0];
    if send.pkt.rel { ReliableIsPush(s.log, send.pkt, send.dst); }
  }

  lemma {:induction false} UdpRunFlags(cfg: Config, s: Sys)
    requires Inv(cfg, s) && FlagInv(s)
    ensures FlagInv(UdpRun(s))
  {
    hide Causal, MoteOk, GlobalsOk, MenuOk, TableOk, TableAfter, Requests, JobOk, PushAcked, HostSpec.Replies,
         HostSpec.TopicsAfter;
    if s.host.udp.Working? && s.host.udp.job.todo != [] {
      UdpJobShape(cfg, s);
      UdpWorkFlags(s);
    } else if s.host.udp.Dispatching? {
      FlagAfter(s.log, Handled(s.host.udp.m));
    }
  }

  /** A step that sends nothing reliable, handles nothing and leaves the flag alone. */
  lemma {:induction false} OtherFlags(s: Sys, s': Sys, es: Log)
    requires FlagInv(s) && Silent(es) && s'.log == s.log + es && s'.host.udp == s.host.udp
    requires s'.host.g.ackTypeWanted == s.host.g.ackTypeWanted && s'.host.g.ackRcv == s.host.g.ackRcv
    ensures FlagInv(s')
  {
    SilentFlag(s.log, es);
  }

  lemma {:induction false} OtherServerStepFlags(s: Sys, step: Step)
    requires FlagInv(s) && !IsNodeStep(step) && step != UdpRuns
    requires s.host.menu.Scanning? ==> s.host.menu.job.todo == []
    ensures FlagInv(Apply(s, step))
  {
    hide PushAcked, CommandPacket, Completed, SlotPushes, FlagInv, Silent;
    var s' := Apply(s, step);
    assert s.log + [] == s.log && Silent([]) by { NothingIsSilent(); }
    match step
    case UdpReceives(m) => ReceiveFlags(s, m);
    case MenuChooses(c) =>
      if s.host.menu.Prompt? {
        OneSilent(s.log, MenuChose(c));
        OtherFlags(s, s', [MenuChose(c)]);
      }
    case AckSends(k) =>
      if s' != s {
        OneSilent(s.log, Sent(Completed(s.host.g, s.host.g.reading[k]).value));
        OtherFlags(s, s', [Sent(Completed(s.host.g, s.host.g.reading[k]).value)]);
      }
    case _ => OtherFlags(s, s', []);
  }

  lemma {:induction false} NothingIsSilent()
    ensures Silent([])
  {
  }

  lemma {:induction false} ReceiveFlags(s: Sys, m: Msg)
    requires FlagInv(s)
    ensures FlagInv(UdpReceive(s, m))
  {
    hide PushAcked;
  }

  lemma {:induction false} ApplyFlags(cfg: Config, s: Sys, step: Step)
    requires Inv(cfg, s) && ServerInv(cfg, s) && FlagInv(s) && !HasLight(cfg)
    ensures FlagInv(Apply(s, step))
  {
    hide Inv, FlagInv, HasLight, UdpRun, AllServed, Owed, Pushed, Pending, GivenServed, UdpServed, PushGiven;
    if step == UdpRuns {
      UdpRunFlags(cfg, s);
    } else if IsNodeStep(step) {
      var es := NodeStepIsSilent(s, step);
      OtherFlags(s, Apply(s, step), es);
    } else {
      MenuHasNoPush(cfg, s);
      OtherServerStepFlags(s, step);
    }
  }

  lemma {:induction false} FlagReachable(cfg: Config, steps: seq<Step>)
    requires !HasLight(cfg)
    ensures FlagInv(Exec(cfg, steps))
  {
    hide Inv, Apply, ServerInv, FlagInv, HasLight;
    if steps == [] {
      InitFlags(cfg);
    } else {
      var before := steps[..|steps| - 1];
      FlagReachable(cfg, before);
      Reachable(cfg, before);
      ServerReachable(cfg, before);
      ApplyFlags(cfg, Exec(cfg, before), steps[|steps| - 1]);
    }
  }

  lemma {:induction false} InitFlags(cfg: Config)
    ensures FlagInv(Init(cfg))
  {
  }

  // ---------- The results

  /** Without a light, in every reachable state: once a push has been sent, the flag is set if
      and only if a PUSHACK came after the last reliable packet was passed to `sendPacket`. */
  lemma {:induction false} ServerFlagIsHistory(cfg: Config, steps: seq<Step>)
    requires !HasLight(cfg)
    ensures var s := Exec(cfg, steps);
      s.host.g.ackTypeWanted == PUSHACK ==>
        (s.host.g.ackRcv <==> PushAcked(s.log) || PushAckAtHand(s.host.udp))
  {
    hide Exec, PushAcked, HasLight;
    FlagReachable(cfg, steps);
  }

  /** With a table of no slots nothing is ever pushed, so no PUSHACK is ever awaited. */
  lemma {:induction false} NoTableNoPush(cfg: Config, steps: seq<Step>)
    requires cfg.serverTopics == 0
    ensures Exec(cfg, steps).host.g.ackTypeWanted != PUSHACK
  {
    hide Exec, Owed, Pushed, Pending, UdpServed, MenuServed, Causal, MoteOk, GlobalsOk, UdpOk, MenuOk, TableOk,
         Requests;
    Reachable(cfg, steps);
    ServerReachable(cfg, steps);
    var s := Exec(cfg, steps);
    if s.host.g.ackTypeWanted == PUSHACK { GivenNeedsTable(s.log, s.host.topics); }
  }

  lemma {:induction false} GivenNeedsTable(log: Log, t: Table)
    requires GivenServed(log, t) && PushGiven(log)
    ensures t != []
  {
    var m: Msg :| Given(m) in log && m.pkt.mst == PUSH;
    assert SendServed(t, Send(m.pkt, m.dst));
  }

  lemma {:induction false} FlagIsTrueWithoutLight(cfg: Config, steps: seq<Step>)
    requires !HasLight(cfg) || cfg.serverTopics == 0
    ensures FlagIsTrue(Exec(cfg, steps))
  {
    hide Exec, PushAcked, PushAckAtHand, HasLight;
    if !HasLight(cfg) { ServerFlagIsHistory(cfg, steps); } else { NoTableNoPush(cfg, steps); }
  }

  lemma {:induction false} PushAckedWasHandled(log: Log)
    requires PushAcked(log)
    ensures exists m: Msg :: m.dst == Server && m.pkt.mst == PUSHACK && Handled(m) in log
  {
    var before, last := log[..|log| - 1], log[|log| - 1];
    assert log == before + [last];
    if !(last.Handled? && last.m.dst == Server && last.m.pkt.mst == PUSHACK) {
      PushAckedWasHandled(before);
      var m: Msg :| m.dst == Server && m.pkt.mst == PUSHACK && Handled(m) in before;
      assert Handled(m) in log;
    }
  }
}
