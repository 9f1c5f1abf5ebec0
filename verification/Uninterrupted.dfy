/** What the statement-by-statement threads of `Network` do when nothing comes between their
    statements: the UDP thread runs `handleMessage`, the menu thread runs `publishTo`. */
module Uninterrupted {
  import opened Packets
  import opened Topics
  import opened Network
  import HostSpec

  /** The trace of packets passed to `sendPacket` and sent at once. */
  function Outgoing(sends: seq<Send>): Log {
    if sends == [] then []
    else
      var m := Msg(Server, sends[0].dst, sends[0].pkt);
      [Given(m), Sent(m)] + Outgoing(sends[1..])
  }

  lemma {:induction false} OutgoingConcat(a: seq<Send>, b: seq<Send>)
    ensures Outgoing(a + b) == Outgoing(a) + Outgoing(b)
  {
    if a == [] {
      assert a + b == b;
    } else {
      assert (a + b)[1..] == a[1..] + b;
      OutgoingConcat(a[1..], b);
    }
  }

  lemma {:induction false} OutgoingSends(sends: seq<Send>, k: nat)
    requires k < |sends|
    ensures var m := Msg(Server, sends[k].dst, sends[k].pkt);
      Given(m) in Outgoing(sends) && Sent(m) in Outgoing(sends)
  {
    if k > 0 { OutgoingSends(sends[1..], k - 1); }
  }

  lemma {:induction false} OutgoingIsOutgoing(sends: seq<Send>)
    ensures forall e :: e in Outgoing(sends) ==>
      (e.Given? || e.Sent?) && Send(e.m.pkt, e.m.dst) in sends && e.m.src == Server
  {
    if sends != [] { OutgoingIsOutgoing(sends[1..]); }
  }

  // ---------- A job, in the UDP thread

  function UdpState(s: Sys, g: HostSpec.Globals, job: HostSpec.Job, log: Log): Sys {
    Sys(s.motes, HostSpec.Host(g, s.host.topics, HostSpec.Working(job), s.host.menu), log)
  }

  lemma {:induction false} UdpStatement(s: Sys, g: HostSpec.Globals, job: HostSpec.Job, log: Log)
    requires job.todo != []
    ensures var r := HostSpec.JobStep(g, job);
      Apply(UdpState(s, g, job, log), UdpRuns) == UdpState(s, r.g, r.job, log + ActEvents(r.act))
  {
  }

  /** The six statements of a reliable send, the two of an unreliable one. */
  lemma {:induction false} UdpFirstSend(s: Sys, g: HostSpec.Globals, todo: seq<Send>, log: Log)
    requires todo != []
    ensures var m := Msg(Server, todo[0].dst, todo[0].pkt);
      Repeat(UdpState(s, g, HostSpec.Job(todo, HostSpec.Enter), log), UdpRuns, if m.pkt.rel then 6 else 2) ==
      UdpState(s, HostSpec.SendPacket(g, todo[0]), HostSpec.Job(todo[1..], HostSpec.Enter), log + [Given(m), Sent(m)])
  {
    hide Apply, UdpState;
    var send := todo[0];
    var m := Msg(Server, send.dst, send.pkt);
    var log1 := log + [Given(m)];
    var r0 := HostSpec.JobStep(g, HostSpec.Job(todo, HostSpec.Enter));
    UdpStatement(s, g, HostSpec.Job(todo, HostSpec.Enter), log);
    if send.pkt.rel {
      var r1 := HostSpec.JobStep(r0.g, r0.job);
      var r2 := HostSpec.JobStep(r1.g, r1.job);
      var r3 := HostSpec.JobStep(r2.g, r2.job);
      var r4 := HostSpec.JobStep(r3.g, r3.job);
      assert log1 + [] == log1;
      UdpStatement(s, r0.g, r0.job, log1);
      UdpStatement(s, r1.g, r1.job, log1);
      UdpStatement(s, r2.g, r2.job, log1);
      UdpStatement(s, r3.g, r3.job, log1);
      UdpStatement(s, r4.g, r4.job, log1);
      RepeatSix(UdpState(s, g, HostSpec.Job(todo, HostSpec.Enter), log), UdpRuns);
      assert r4.g == HostSpec.SendPacket(g, send);
    } else {
      UdpStatement(s, r0.g, r0.job, log1);
      RepeatTwo(UdpState(s, g, HostSpec.Job(todo, HostSpec.Enter), log), UdpRuns);
    }
    assert log1 + [Sent(m)] == log + [Given(m), Sent(m)];
  }

  lemma {:induction false} RepeatTwo(s: Sys, step: Step)
    ensures Repeat(s, step, 2) == Apply(Apply(s, step), step)
  {
    hide Apply;
    var s1 := Apply(s, step);
    assert Repeat(s1, step, 1) == Repeat(Apply(s1, step), step, 0);
  }

  lemma {:induction false} RepeatSix(s: Sys, step: Step)
    ensures Repeat(s, step, 6) == Apply(Apply(Apply(Apply(Apply(Apply(s, step), step), step), step), step), step)
  {
    hide Apply;
    var s2 := Apply(Apply(s, step), step);
    RepeatSum(s, step, 2, 4);
    RepeatSum(s2, step, 2, 2);
    RepeatTwo(s, step);
    RepeatTwo(s2, step);
    RepeatTwo(Apply(Apply(s2, step), step), step);
  }

  lemma {:induction false} UdpJobEnds(s: Sys, g: HostSpec.Globals, log: Log)
    ensures Repeat(UdpState(s, g, HostSpec.Job([], HostSpec.Enter), log), UdpRuns, 1) ==
      Sys(s.motes, HostSpec.Host(g, s.host.topics, HostSpec.Waiting, s.host.menu), log)
  {
    var now := UdpState(s, g, HostSpec.Job([], HostSpec.Enter), log);
    assert Repeat(now, UdpRuns, 1) == Repeat(Apply(now, UdpRuns), UdpRuns, 0);
  }

  lemma {:induction false} UdpJob(s: Sys, g: HostSpec.Globals, todo: seq<Send>, log: Log) returns (k: nat)
    ensures Repeat(UdpState(s, g, HostSpec.Job(todo, HostSpec.Enter), log), UdpRuns, k) ==
      Sys(s.motes, HostSpec.Host(HostSpec.AfterSends(g, todo), s.host.topics, HostSpec.Waiting, s.host.menu),
          log + Outgoing(todo))
    decreases |todo|
  {
    hide HostSpec.SendPacket, Apply, UdpState;
    var now := UdpState(s, g, HostSpec.Job(todo, HostSpec.Enter), log);
    if todo == [] {
      k := 1;
      UdpJobEnds(s, g, log);
      assert log + [] == log;
    } else {
      var m := Msg(Server, todo[0].dst, todo[0].pkt);
      var log1 := log + [Given(m), Sent(m)];
      var first := if m.pkt.rel then 6 else 2;
      UdpFirstSend(s, g, todo, log);
      var rest := UdpJob(s, HostSpec.SendPacket(g, todo[0]), todo[1..], log1);
      RepeatSum(now, UdpRuns, first, rest);
      k := first + rest;
      assert log1 + Outgoing(todo[1..]) == log + Outgoing(todo);
    }
  }

  /** From the reading of `ackRcv` to the end of the `switch`, uninterrupted, the UDP thread
      does what `handleMessage` is specified to do. */
  lemma {:induction false} UdpHandlesMessage(s: Sys, m: Msg) returns (k: nat)
    requires s.host.udp == HostSpec.Testing(m)
    ensures var h := s.host;
      var replies := HostSpec.Replies(h.topics, m.pkt, m.src);
      Repeat(s, UdpRuns, k) ==
        Sys(s.motes,
            HostSpec.Host(HostSpec.AfterSends(HostSpec.TakeAck(h.g, m.pkt), replies),
                          HostSpec.TopicsAfter(h.topics, m.pkt, m.src), HostSpec.Waiting, h.menu),
            s.log + [Handled(m)] + Outgoing(replies))
  {
    hide HostSpec.Replies, HostSpec.TopicsAfter, HostSpec.AfterSends, Outgoing;
    var h := s.host;
    var replies := HostSpec.Replies(h.topics, m.pkt, m.src);
    var j := UdpDispatches(s, m);
    var now := Repeat(s, UdpRuns, j);
    var rest := UdpJob(now, now.host.g, replies, now.log);
    RepeatSum(s, UdpRuns, j, rest);
    k := j + rest;
  }

  lemma {:induction false} UdpDispatches(s: Sys, m: Msg) returns (k: nat)
    requires s.host.udp == HostSpec.Testing(m)
    ensures var h := s.host;
      Repeat(s, UdpRuns, k) ==
        Sys(s.motes,
            HostSpec.Host(HostSpec.TakeAck(h.g, m.pkt), HostSpec.TopicsAfter(h.topics, m.pkt, m.src),
                          HostSpec.Working(HostSpec.Job(HostSpec.Replies(h.topics, m.pkt, m.src), HostSpec.Enter)),
                          h.menu),
            s.log + [Handled(m)])
  {
    hide HostSpec.Replies, HostSpec.TopicsAfter;
    var s1 := UdpRun(s);
    var s2 := UdpRun(s1);
    var s3 := UdpRun(s2);
    RepeatTwo(s, UdpRuns);
    RepeatTwo(s2, UdpRuns);
    RepeatSum(s, UdpRuns, 2, 2);
    if s1.host.udp.Dispatching? {
      k := 2;
    } else if s2.host.udp.Dispatching? {
      k := 3;
      RepeatSum(s, UdpRuns, 2, 1);
      assert Repeat(s2, UdpRuns, 1) == Repeat(Apply(s2, UdpRuns), UdpRuns, 0);
    } else {
      k := 4;
    }
  }

  // ---------- The menu thread

  function MenuState(s: Sys, g: HostSpec.Globals, menu: HostSpec.Menu, log: Log): Sys {
    Sys(s.motes, HostSpec.Host(g, s.host.topics, s.host.udp, menu), log)
  }

  lemma {:induction false} MenuStatement(s: Sys, g: HostSpec.Globals, p: Packet, i: nat, job: HostSpec.Job, log: Log)
    requires job.todo != []
    ensures var r := HostSpec.JobStep(g, job);
      Apply(MenuState(s, g, HostSpec.Scanning(p, i, job), log), MenuRuns) ==
      MenuState(s, r.g, HostSpec.Scanning(p, i, r.job), log + ActEvents(r.act))
  {
  }

  lemma {:induction false} MenuFirstSend(s: Sys, g: HostSpec.Globals, p: Packet, i: nat, todo: seq<Send>, log: Log)
    requires todo != []
    ensures var m := Msg(Server, todo[0].dst, todo[0].pkt);
      Repeat(MenuState(s, g, HostSpec.Scanning(p, i, HostSpec.Job(todo, HostSpec.Enter)), log), MenuRuns,
             if m.pkt.rel then 6 else 2) ==
      MenuState(s, HostSpec.SendPacket(g, todo[0]), HostSpec.Scanning(p, i, HostSpec.Job(todo[1..], HostSpec.Enter)),
                log + [Given(m), Sent(m)])
  {
    hide Apply, MenuState;
    var send := todo[0];
    var m := Msg(Server, send.dst, send.pkt);
    var log1 := log + [Given(m)];
    var job := HostSpec.Job(todo, HostSpec.Enter);
    var r0 := HostSpec.JobStep(g, job);
    MenuStatement(s, g, p, i, job, log);
    if send.pkt.rel {
      var r1 := HostSpec.JobStep(r0.g, r0.job);
      var r2 := HostSpec.JobStep(r1.g, r1.job);
      var r3 := HostSpec.JobStep(r2.g, r2.job);
      var r4 := HostSpec.JobStep(r3.g, r3.job);
      assert log1 + [] == log1;
      MenuStatement(s, r0.g, p, i, r0.job, log1);
      MenuStatement(s, r1.g, p, i, r1.job, log1);
      MenuStatement(s, r2.g, p, i, r2.job, log1);
      MenuStatement(s, r3.g, p, i, r3.job, log1);
      MenuStatement(s, r4.g, p, i, r4.job, log1);
      RepeatSix(MenuState(s, g, HostSpec.Scanning(p, i, job), log), MenuRuns);
      assert r4.g == HostSpec.SendPacket(g, send);
    } else {
      MenuStatement(s, r0.g, p, i, r0.job, log1);
      RepeatTwo(MenuState(s, g, HostSpec.Scanning(p, i, job), log), MenuRuns);
    }
    assert log1 + [Sent(m)] == log + [Given(m), Sent(m)];
  }

  lemma {:induction false} MenuJob(
    s: Sys, g: HostSpec.Globals, p: Packet, i: nat, todo: seq<Send>, log: Log) returns (k: nat)
    ensures Repeat(MenuState(s, g, HostSpec.Scanning(p, i, HostSpec.Job(todo, HostSpec.Enter)), log), MenuRuns, k) ==
      MenuState(s, HostSpec.AfterSends(g, todo), HostSpec.Scanning(p, i, HostSpec.Job([], HostSpec.Enter)),
                log + Outgoing(todo))
    decreases |todo|
  {
    hide HostSpec.SendPacket, Apply, MenuState;
    if todo == [] {
      k := 0;
      assert log + [] == log;
    } else {
      var now := MenuState(s, g, HostSpec.Scanning(p, i, HostSpec.Job(todo, HostSpec.Enter)), log);
      var m := Msg(Server, todo[0].dst, todo[0].pkt);
      var log1 := log + [Given(m), Sent(m)];
      var first := if m.pkt.rel then 6 else 2;
      MenuFirstSend(s, g, p, i, todo, log);
      var rest := MenuJob(s, HostSpec.SendPacket(g, todo[0]), p, i, todo[1..], log1);
      RepeatSum(now, MenuRuns, first, rest);
      k := first + rest;
      assert log1 + Outgoing(todo[1..]) == log + Outgoing(todo);
    }
  }

  /** Slot i is looked at, and served. */
  lemma {:induction false} MenuSlot(s: Sys, g: HostSpec.Globals, p: Packet, i: nat, log: Log) returns (k: nat)
    requires i < |s.host.topics|
    ensures var pushes := SlotPushes(s.host.topics[i], p);
      Repeat(MenuState(s, g, HostSpec.Scanning(p, i, HostSpec.Job([], HostSpec.Enter)), log), MenuRuns, k) ==
      MenuState(s, HostSpec.AfterSends(g, pushes), HostSpec.Scanning(p, i + 1, HostSpec.Job([], HostSpec.Enter)),
                log + Outgoing(pushes))
  {
    hide SlotPushes, Outgoing, HostSpec.AfterSends;
    var now := MenuState(s, g, HostSpec.Scanning(p, i, HostSpec.Job([], HostSpec.Enter)), log);
    var pushes := SlotPushes(s.host.topics[i], p);
    var rest := MenuJob(s, g, p, i + 1, pushes, log);
    assert Apply(now, MenuRuns) ==
      MenuState(s, g, HostSpec.Scanning(p, i + 1, HostSpec.Job(pushes, HostSpec.Enter)), log);
    k := 1 + rest;
  }

  /** The first i slots of the scan. */
  lemma {:induction false} MenuScan(s: Sys, g: HostSpec.Globals, p: Packet, i: nat, log: Log) returns (k: nat)
    requires i <= |s.host.topics|
    ensures var pushes := Pushes(s.host.topics[..i], p);
      Repeat(MenuState(s, g, HostSpec.Scanning(p, 0, HostSpec.Job([], HostSpec.Enter)), log), MenuRuns, k) ==
      MenuState(s, HostSpec.AfterSends(g, pushes), HostSpec.Scanning(p, i, HostSpec.Job([], HostSpec.Enter)),
                log + Outgoing(pushes))
    decreases i
  {
    hide SlotPushes, Apply, MenuState, HostSpec.SendPacket;
    var t := s.host.topics;
    if i == 0 {
      k := 0;
      assert t[..0] == [];
      assert log + [] == log;
    } else {
      var start := MenuState(s, g, HostSpec.Scanning(p, 0, HostSpec.Job([], HostSpec.Enter)), log);
      var done, next := Pushes(t[..i - 1], p), SlotPushes(t[i - 1], p);
      assert t[..i][..i - 1] == t[..i - 1];
      var j := MenuScan(s, g, p, i - 1, log);
      var rest := MenuSlot(s, HostSpec.AfterSends(g, done), p, i - 1, log + Outgoing(done));
      RepeatSum(start, MenuRuns, j, rest);
      k := j + rest;
      HostSpec.AfterSendsConcat(g, done, next);
      OutgoingConcat(done, next);
      assert log + Outgoing(done) + Outgoing(next) == log + Outgoing(done + next);
    }
  }

  /** From the choice in the menu to the next prompt, uninterrupted, the menu thread does what
      `publishTo` is specified to do. */
  lemma {:induction false} MenuPublishes(s: Sys, p: Packet) returns (k: nat)
    requires s.host.menu == HostSpec.Scanning(p, 0, HostSpec.Job([], HostSpec.Enter))
    ensures var h := s.host;
      var pushes := Pushes(h.topics, p);
      Repeat(s, MenuRuns, k) ==
        Sys(s.motes, HostSpec.Host(HostSpec.AfterSends(h.g, pushes), h.topics, h.udp, HostSpec.Prompt),
            s.log + Outgoing(pushes))
  {
    hide Pushes, Outgoing, HostSpec.AfterSends;
    var n := |s.host.topics|;
    var j := MenuScan(s, s.host.g, p, n, s.log);
    assert s.host.topics[..n] == s.host.topics;
    assert MenuState(s, s.host.g, s.host.menu, s.log) == s;
    var end := Repeat(s, MenuRuns, j);
    assert Repeat(end, MenuRuns, 1) == Repeat(Apply(end, MenuRuns), MenuRuns, 0);
    RepeatSum(s, MenuRuns, j, 1);
    k := j + 1;
  }
}
