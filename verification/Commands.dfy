/** The ledger of the operator's commands, over whole interleaved runs: which pushes each
    command leads to while the UDP thread may register topics during the scan. */
module Commands {
  import opened Packets
  import opened Topics
  import opened Network
  import opened Causality
  import opened Invariant
  import opened HostSteps
  import opened Guarantees
  import opened Served
  import HostSpec

  // ---------- The command under way, or carried out last

  function LastChoice(log: Log): Option<Packet> {
    if log == [] then None
    else
      var last := log[|log| - 1];
      if last.MenuChose? then Some(CommandPacket(last.c)) else LastChoice(log[..|log| - 1])
  }

  /** The SUBSCRIBE packets handled before the last command was chosen. */
  function ChoiceRequests(log: Log): seq<Request> {
    if log == [] then []
    else
      var before := log[..|log| - 1];
      if log[|log| - 1].MenuChose? then Requests(before) else ChoiceRequests(before)
  }

  predicate IsMenuPush(p: Packet) { p.mst == PUSH && p.option != "GAS" }

  /** The pushes given to `sendPacket` since then, other than those about gas. */
  function CommandPushes(log: Log): seq<Send> {
    if log == [] then []
    else
      var before, last := log[..|log| - 1], log[|log| - 1];
      if last.MenuChose? then []
      else if last.Given? && IsMenuPush(last.m.pkt) then CommandPushes(before) + [Send(last.m.pkt, last.m.dst)]
      else CommandPushes(before)
  }

  /** What a scan of the first i slots sends if these requests have filled the table. */
  function DueUpTo(reqs: seq<Request>, p: Packet, i: nat): seq<Send> {
    var f := FirstRequest(reqs, p.option);
    if f < |reqs| && Rank(reqs, p.option) < i then [Send(Push(p), reqs[f].from)] else []
  }

  /** These are the pushes due at some moment between two histories. */
  ghost predicate DueBetween(earlier: seq<Request>, now: seq<Request>, p: Packet, i: nat, sends: seq<Send>) {
    exists r :: earlier <= r <= now && sends == DueUpTo(r, p, i)
  }

  /** The last command, if any, was carried out: it led to the pushes that were due at some
      moment between its choice and now, and no others were sent. */
  ghost predicate CarriedOut(log: Log, n: nat) {
    match LastChoice(log)
    case None => CommandPushes(log) == []
    case Some(p) => DueBetween(ChoiceRequests(log), Requests(log), p, n, CommandPushes(log))
  }

  // ---------- What "some moment" comes to

  lemma {:induction false} DueIsStable(r: seq<Request>, r': seq<Request>, p: Packet, i: nat)
    requires r <= r'
    ensures FirstRequest(r, p.option) < |r| ==>
      FirstRequest(r', p.option) == FirstRequest(r, p.option) && Rank(r', p.option) == Rank(r, p.option)
    ensures DueUpTo(r, p, i) != [] ==> DueUpTo(r', p, i) == DueUpTo(r, p, i)
    decreases |r'|
  {
    hide FirstRequest, Rank;
    if r == r' {
    } else {
      var init := r'[..|r'| - 1];
      assert r' == init + [r'[|r'| - 1]];
      DueIsStable(r, init, p, i);
      FirstRequestSnoc(init, r'[|r'| - 1], p.option);
    }
  }

  /** A carried out command reached the first subscriber if its topic had been requested
      before the choice, nobody if it was not requested before the end, and in between either. */
  lemma {:induction false} CarriedOutMeans(log: Log, n: nat, p: Packet)
    requires CarriedOut(log, n) && LastChoice(log) == Some(p)
    ensures DueUpTo(ChoiceRequests(log), p, n) != [] ==> CommandPushes(log) == DueUpTo(ChoiceRequests(log), p, n)
    ensures CommandPushes(log) == [] || CommandPushes(log) == DueUpTo(Requests(log), p, n)
  {
    hide DueUpTo;
    var r :| ChoiceRequests(log) <= r <= Requests(log) && CommandPushes(log) == DueUpTo(r, p, n);
    DueIsStable(ChoiceRequests(log), r, p, n);
    DueIsStable(r, Requests(log), p, n);
  }

  // ---------- The invariant

  /** The sends of a job not yet given to `sendPacket`. */
  function Left(job: HostSpec.Job): seq<Send> {
    if job.todo == [] || job.pc.Enter? then job.todo else job.todo[1..]
  }

  ghost predicate EarlierCarriedOut(log: Log, n: nat) {
    forall j :: 0 <= j < |log| && log[j].MenuChose? ==> CarriedOut(log[..j], n)
  }

  /** The UDP thread pushes about gas only. */
  ghost predicate UdpGas(udp: HostSpec.Udp) {
    udp.Working? ==> forall k :: 0 <= k < |udp.job.todo| ==> !IsMenuPush(udp.job.todo[k].pkt)
  }

  ghost predicate MenuLedger(log: Log, n: nat, menu: HostSpec.Menu) {
    match menu
    case Prompt => CarriedOut(log, n)
    case Scanning(p, i, job) =>
      && LastChoice(log) == Some(p) && i <= n
      && DueBetween(ChoiceRequests(log), Requests(log), p, i, CommandPushes(log) + Left(job))
  }

  ghost predicate CommandInv(cfg: Config, s: Sys) {
    && EarlierCarriedOut(s.log, cfg.serverTopics)
    && ChoiceRequests(s.log) <= Requests(s.log)
    && UdpGas(s.host.udp)
    && MenuLedger(s.log, cfg.serverTopics, s.host.menu)
  }

  // ---------- Events

  /** Everything the ledger reads off the log is the same. */
  ghost predicate SameBooks(log: Log, log': Log) {
    && LastChoice(log') == LastChoice(log) && ChoiceRequests(log') == ChoiceRequests(log)
    && CommandPushes(log') == CommandPushes(log) && Requests(log') == Requests(log)
  }

  predicate IsNeutral(e: Event) {
    && !e.MenuChose? && !(e.Given? && IsMenuPush(e.m.pkt))
    && !(e.Handled? && e.m.dst == Server && e.m.pkt.mst == SUBSCRIBE)
  }

  lemma {:induction false} NeutralEvents(log: Log, es: Log, n: nat)
    requires forall k :: 0 <= k < |es| ==> IsNeutral(es[k])
    ensures SameBooks(log, log + es)
    ensures EarlierCarriedOut(log, n) ==> EarlierCarriedOut(log + es, n)
  {
    hide CarriedOut;
    if es == [] {
      assert log + es == log;
    } else {
      var init, e := es[..|es| - 1], es[|es| - 1];
      NeutralEvents(log, init, n);
      assert log + es == log + init + [e];
      assert IsNeutral(e);
      OneNeutral(log + init, e);
      if EarlierCarriedOut(log, n) { EarlierGrows(log + init, e, n); }
    }
  }

  lemma {:induction false} OneNeutral(log: Log, e: Event)
    requires IsNeutral(e)
    ensures SameBooks(log, log + [e])
  {
    assert (log + [e])[..|log|] == log;
  }

  lemma {:induction false} EarlierGrows(log: Log, e: Event, n: nat)
    requires EarlierCarriedOut(log, n) && (e.MenuChose? ==> CarriedOut(log, n))
    ensures EarlierCarriedOut(log + [e], n)
  {
    hide CarriedOut;
    var log' := log + [e];
    forall j | 0 <= j < |log'| && log'[j].MenuChose? ensures CarriedOut(log'[..j], n) {
      if j < |log| { assert log'[..j] == log[..j]; } else { assert log'[..j] == log; }
    }
  }

  /** The server's threads stay where they are and only neutral events happen. */
  lemma {:induction false} NeutralKeeps(cfg: Config, s: Sys, s': Sys, es: Log)
    requires CommandInv(cfg, s) && s'.log == s.log + es && s'.host.menu == s.host.menu
    requires forall k :: 0 <= k < |es| ==> IsNeutral(es[k])
    requires UdpGas(s'.host.udp)
    ensures CommandInv(cfg, s')
  {
    hide DueBetween, UdpGas, EarlierCarriedOut, IsNeutral;
    NeutralEvents(s.log, es, cfg.serverTopics);
  }

  // ---------- The UDP thread

  lemma {:induction false} HandledBooks(log: Log, m: Msg)
    requires m.dst == Server
    ensures var log' := log + [Handled(m)];
      && LastChoice(log') == LastChoice(log) && ChoiceRequests(log') == ChoiceRequests(log)
      && CommandPushes(log') == CommandPushes(log) && Requests(log) <= Requests(log')
  {
    assert (log + [Handled(m)])[..|log|] == log;
  }

  lemma {:induction false} LaterHistory(
    earlier: seq<Request>, now: seq<Request>, later: seq<Request>, p: Packet, i: nat, sends: seq<Send>)
    requires DueBetween(earlier, now, p, i, sends) && now <= later
    ensures DueBetween(earlier, later, p, i, sends)
  {
    hide DueUpTo;
    var r :| earlier <= r <= now && sends == DueUpTo(r, p, i);
    assert earlier <= r <= later;
  }

  lemma {:induction false} RepliesAreGas(cfg: Config, log: Log, t: Table, m: Msg)
    requires WellFormed(t)
    requires m.src.Mote? && m.src.id < |cfg.kinds| && MoteMay(cfg, log, m.src.id, m.pkt)
    ensures UdpGas(HostSpec.Working(HostSpec.Job(HostSpec.Replies(t, m.pkt, m.src), HostSpec.Enter)))
  {
    hide Pushes, WellFormed, MoteMay, GasValueSent, Find;
    var p := m.pkt;
    MoteTypeShapes(cfg, log, m.src.id, p);
    if p.mst == PUBLISH {
      GasValueIsGas(log, m.src.id, p);
      ScanReaches(t, PublishSlots(t), p);
      assert Push(p).option == p.option;
    }
  }

  lemma {:induction false} DispatchCommands(cfg: Config, s: Sys)
    requires Inv(cfg, s) && CommandInv(cfg, s) && s.host.udp.Dispatching?
    ensures CommandInv(cfg, UdpRun(s))
  {
    hide Causal, MoteOk, GlobalsOk, MenuOk, TableOk, TableAfter, Requests, HostSpec.Replies, HostSpec.TopicsAfter,
         UdpGas, DueBetween, CarriedOut, WellFormed, MoteMay;
    var m, n := s.host.udp.m, cfg.serverTopics;
    var s' := UdpRun(s);
    FromMote(cfg, s.log, m);
    TableRefinesHistory(Requests(s.log), n);
    RepliesAreGas(cfg, s.log, s.host.topics, m);
    HandledBooks(s.log, m);
    EarlierGrows(s.log, Handled(m), n);
    LedgerGoesOn(s.log, s'.log, n, s.host.menu);
  }

  lemma {:induction false} LedgerGoesOn(log: Log, log': Log, n: nat, menu: HostSpec.Menu)
    requires MenuLedger(log, n, menu) && Requests(log) <= Requests(log')
    requires LastChoice(log') == LastChoice(log) && ChoiceRequests(log') == ChoiceRequests(log)
    requires CommandPushes(log') == CommandPushes(log)
    ensures MenuLedger(log', n, menu)
  {
    hide DueBetween;
    var earlier := ChoiceRequests(log);
    match menu
    case Prompt =>
      if LastChoice(log).Some? {
        LaterHistory(earlier, Requests(log), Requests(log'), LastChoice(log).value, n, CommandPushes(log));
      }
    case Scanning(p, i, job) =>
      LaterHistory(earlier, Requests(log), Requests(log'), p, i, CommandPushes(log) + Left(job));
  }

  lemma {:induction false} UdpRunCommands(cfg: Config, s: Sys)
    requires Inv(cfg, s) && CommandInv(cfg, s)
    ensures CommandInv(cfg, UdpRun(s))
  {
    hide Inv, EarlierCarriedOut, MenuLedger, HostSpec.Replies, HostSpec.TopicsAfter;
    if s.host.udp.Dispatching? {
      DispatchCommands(cfg, s);
    } else {
      var es := if s.host.udp.Working? && s.host.udp.job.todo != []
                then ActEvents(HostSpec.JobStep(s.host.g, s.host.udp.job).act) else [];
      assert s.log + [] == s.log;
      NeutralKeeps(cfg, s, UdpRun(s), es);
    }
  }

  // ---------- The menu thread

  lemma {:induction false} ChoiceBooks(log: Log, c: Command)
    ensures var log' := log + [MenuChose(c)];
      && LastChoice(log') == Some(CommandPacket(c)) && ChoiceRequests(log') == Requests(log)
      && CommandPushes(log') == [] && Requests(log') == Requests(log)
  {
    assert (log + [MenuChose(c)])[..|log|] == log;
  }

  lemma {:induction false} ChooseCommands(cfg: Config, s: Sys, c: Command)
    requires CommandInv(cfg, s)
    ensures CommandInv(cfg, MenuChoose(s, c))
  {
    hide CommandPacket, UdpGas, CarriedOut, EarlierCarriedOut, Requests, LastChoice, CommandPushes, ChoiceRequests,
         FirstRequest, Rank;
    if s.host.menu.Prompt? {
      var p, reqs := CommandPacket(c), Requests(s.log);
      ChoiceBooks(s.log, c);
      EarlierGrows(s.log, MenuChose(c), cfg.serverTopics);
      assert reqs <= reqs && DueUpTo(reqs, p, 0) == [] + [];
    }
  }

  lemma {:induction false} GivenBooks(log: Log, m: Msg)
    requires IsMenuPush(m.pkt)
    ensures var log' := log + [Given(m)];
      && LastChoice(log') == LastChoice(log) && ChoiceRequests(log') == ChoiceRequests(log)
      && CommandPushes(log') == CommandPushes(log) + [Send(m.pkt, m.dst)] && Requests(log') == Requests(log)
  {
    assert (log + [Given(m)])[..|log|] == log;
  }

  lemma {:induction false} MenuWorkCommands(cfg: Config, s: Sys)
    requires Inv(cfg, s) && MenuServed(s.host.topics, s.host.menu) && CommandInv(cfg, s)
    requires s.host.menu.Scanning? && s.host.menu.job.todo != []
    ensures CommandInv(cfg, MenuRun(s))
  {
    hide Inv, AllServed, UdpGas, CarriedOut, EarlierCarriedOut, DueBetween, Requests, LastChoice, CommandPushes,
         ChoiceRequests, Push;
    var job, n := s.host.menu.job, cfg.serverTopics;
    var send := job.todo[0];
    var m := Msg(Server, send.dst, send.pkt);
    var r := HostSpec.JobStep(s.host.g, job);
    MenuPushShape(cfg, s);
    if job.pc.Enter? {
      GivenBooks(s.log, m);
      EarlierGrows(s.log, Given(m), n);
      assert CommandPushes(s.log) + job.todo == CommandPushes(s.log) + [send] + job.todo[1..];
      assert Left(r.job) == job.todo[1..];
    } else {
      assert s.log + [] == s.log;
      NeutralEvents(s.log, ActEvents(r.act), n);
      assert Left(r.job) == Left(job);
    }
  }

  lemma {:induction false} MenuPushShape(cfg: Config, s: Sys)
    requires Inv(cfg, s) && MenuServed(s.host.topics, s.host.menu)
    requires s.host.menu.Scanning? && s.host.menu.job.todo != []
    ensures IsMenuPush(s.host.menu.job.todo[0].pkt)
  {
    hide Inv, AllServed;
    MenuIsNoGas(cfg, s, 0);
  }

  /** Slot i, as the history has filled it, adds what is due from it. */
  lemma {:induction false} SlotIsDue(reqs: seq<Request>, n: nat, i: nat, p: Packet)
    requires i < n
    ensures SlotPushes(TableAfter(reqs, n)[i], p) ==
      if FirstRequest(reqs, p.option) < |reqs| && Rank(reqs, p.option) == i
      then [Send(Push(p), reqs[FirstRequest(reqs, p.option)].from)] else []
  {
    hide FirstRequest, Rank;
    var t := TableAfter(reqs, n);
    TableRefinesHistory(reqs, n);
    assert SlotIsHistory(t, reqs, p.option);
    if t[i].Some? && t[i].value.name == p.option {
      assert IsAt(t, i, p.option);
      assert Find(t, p.option) == i by { OnlyOneSlot(t, i, p.option); }
      EntryPushesOfPair(t[i].value.ips, p);
    }
  }

  lemma {:induction false} OnlyOneSlot(t: Table, i: nat, name: string)
    requires WellFormed(t) && i < |t| && IsAt(t, i, name)
    ensures Find(t, name) == i
  {
  }

  lemma {:induction false} ScanGoesOn(
    earlier: seq<Request>, now: seq<Request>, n: nat, p: Packet, i: nat, sends: seq<Send>)
    requires DueBetween(earlier, now, p, i, sends) && i < n
    ensures DueBetween(earlier, now, p, i + 1, sends + SlotPushes(TableAfter(now, n)[i], p))
  {
    hide FirstRequest, Rank, SlotPushes, TableAfter;
    var r :| earlier <= r <= now && sends == DueUpTo(r, p, i);
    var pushes := SlotPushes(TableAfter(now, n)[i], p);
    SlotIsDue(now, n, i, p);
    DueIsStable(r, now, p, i);
    if FirstRequest(now, p.option) < |now| && Rank(now, p.option) == i {
      assert now <= now && sends + pushes == DueUpTo(now, p, i + 1);
    } else {
      assert earlier <= r <= now && sends + pushes == DueUpTo(r, p, i + 1);
    }
  }

  lemma {:induction false} MenuRunCommands(cfg: Config, s: Sys)
    requires Inv(cfg, s) && MenuServed(s.host.topics, s.host.menu) && CommandInv(cfg, s)
    ensures CommandInv(cfg, MenuRun(s))
  {
    hide Causal, MoteOk, GlobalsOk, UdpOk, MenuOk, TableOk, TableAfter, Requests, UdpGas, EarlierCarriedOut, DueBetween,
         LastChoice, CommandPushes, ChoiceRequests, SlotPushes, MenuServed;
    var h, n := s.host, cfg.serverTopics;
    if h.menu.Scanning? {
      var p, i, job := h.menu.p, h.menu.i, h.menu.job;
      if job.todo != [] {
        MenuWorkCommands(cfg, s);
      } else {
        assert CommandPushes(s.log) + [] == CommandPushes(s.log);
        if i < n { ScanGoesOn(ChoiceRequests(s.log), Requests(s.log), n, p, i, CommandPushes(s.log)); }
      }
    }
  }

  // ---------- All steps

  lemma {:induction false} OtherCommands(cfg: Config, s: Sys, step: Step)
    requires CommandInv(cfg, s) && !IsNodeStep(step) && step != UdpRuns && step != MenuRuns
    ensures CommandInv(cfg, Apply(s, step))
  {
    hide CommandInv, MenuChoose, Completed;
    var s' := Apply(s, step);
    assert s.log + [] == s.log;
    assert UdpGas(s.host.udp) by { GasOfInv(cfg, s); }
    match step
    case MenuChooses(c) => ChooseCommands(cfg, s, c);
    case AckSends(k) =>
      if s' != s { NeutralKeeps(cfg, s, s', [Sent(Completed(s.host.g, s.host.g.reading[k]).value)]); }
    case _ => NeutralKeeps(cfg, s, s', []);
  }

  lemma {:induction false} GasOfInv(cfg: Config, s: Sys)
    requires CommandInv(cfg, s)
    ensures UdpGas(s.host.udp)
  {
  }

  lemma {:induction false} NodesAreNeutral(es: Log)
    requires NodesOnly(es)
    ensures forall k :: 0 <= k < |es| ==> IsNeutral(es[k])
  {
  }

  lemma {:induction false} ApplyCommands(cfg: Config, s: Sys, step: Step)
    requires Inv(cfg, s) && MenuServed(s.host.topics, s.host.menu) && CommandInv(cfg, s)
    ensures CommandInv(cfg, Apply(s, step))
  {
    hide Inv, CommandInv, UdpRun, MenuRun, MenuServed;
    if step == UdpRuns {
      UdpRunCommands(cfg, s);
    } else if step == MenuRuns {
      MenuRunCommands(cfg, s);
    } else if IsNodeStep(step) {
      var es := NodeStepIsSilent(s, step);
      NodesAreNeutral(es);
      GasOfInv(cfg, s);
      NeutralKeeps(cfg, s, Apply(s, step), es);
    } else {
      OtherCommands(cfg, s, step);
    }
  }

  lemma {:induction false} InitCommands(cfg: Config)
    ensures CommandInv(cfg, Init(cfg))
  {
  }

  lemma {:induction false} CommandsReachable(cfg: Config, steps: seq<Step>)
    ensures CommandInv(cfg, Exec(cfg, steps))
  {
    hide Inv, Apply, CommandInv, GivenServed, UdpServed, MenuServed, Owed, Pushed, Pending, PushGiven;
    if steps == [] {
      InitCommands(cfg);
    } else {
      var before := steps[..|steps| - 1];
      CommandsReachable(cfg, before);
      Reachable(cfg, before);
      ServerReachable(cfg, before);
      ApplyCommands(cfg, Exec(cfg, before), steps[|steps| - 1]);
    }
  }

  // ---------- The result

  /** In every run every command but the one under way has been carried out, and so has the
      last one when the menu prompts: it was pushed to the address that was due for its topic
      at some moment between the choice and the next prompt, and nothing else was. The
      command under way has been pushed to what was due from the slots already looked at. */
  lemma {:induction false} CommandsAreCarriedOut(cfg: Config, steps: seq<Step>)
    ensures var s := Exec(cfg, steps);
      && (forall j :: 0 <= j < |s.log| && s.log[j].MenuChose? ==> CarriedOut(s.log[..j], cfg.serverTopics))
      && (s.host.menu.Prompt? ==> CarriedOut(s.log, cfg.serverTopics))
      && (s.host.menu.Scanning? ==>
            && LastChoice(s.log) == Some(s.host.menu.p)
            && DueBetween(ChoiceRequests(s.log), Requests(s.log), s.host.menu.p, s.host.menu.i,
                          CommandPushes(s.log) + Left(s.host.menu.job)))
  {
    hide Exec, CarriedOut, DueBetween;
    CommandsReachable(cfg, steps);
  }

  // ---------- What the commands say

  /** The command under way, or carried out last. */
  function LastCommand(log: Log): Option<Command> {
    if log == [] then None
    else
      var last := log[|log| - 1];
      if last.MenuChose? then Some(last.c) else LastCommand(log[..|log| - 1])
  }

  /** The topic and the text with which a command arrives, written out. */
  function TopicFor(c: Command): string {
    match c
    case LightOn => "Light"
    case LightOff => "Light"
    case WasherOn => "Washer"
    case WasherOff => "Washer"
  }

  function PushFor(c: Command): Packet {
    match c
    case LightOn => Packet(12, true, "Light", "    ON")
    case LightOff => Packet(12, true, "Light", "    OFF")
    case WasherOn => Packet(12, true, "Washer", "    ON")
    case WasherOff => Packet(12, true, "Washer", "    OFF")
  }

  lemma {:induction false} PushOfCommand(c: Command)
    ensures Push(CommandPacket(c)) == PushFor(c) && CommandPacket(c).option == TopicFor(c)
  {
    assert forall text: string :: "  " + ("  " + text) == "    " + text;
  }

  lemma {:induction false} ChoiceOfCommand(log: Log)
    ensures LastChoice(log) == if LastCommand(log).Some? then Some(CommandPacket(LastCommand(log).value)) else None
  {
    hide CommandPacket;
    if log != [] { ChoiceOfCommand(log[..|log| - 1]); }
  }

  /** Choosing a command at the prompt makes it the one under way. */
  lemma {:induction false} ChoiceTakesEffect(s: Sys, c: Command)
    requires s.host.menu.Prompt?
    ensures LastCommand(Apply(s, MenuChooses(c)).log) == Some(c)
  {
    hide CommandPacket;
  }

  predicate AllAre(sends: seq<Send>, p: Packet) {
    forall k :: 0 <= k < |sends| ==> sends[k].pkt == p
  }

  lemma {:induction false} DueAre(earlier: seq<Request>, now: seq<Request>, p: Packet, i: nat, sends: seq<Send>)
    requires DueBetween(earlier, now, p, i, sends)
    ensures AllAre(sends, Push(p))
  {
    hide FirstRequest, Rank;
  }

  /** What was pushed for the last command is its text, and it reached the first subscriber
      if there was one, with a slot, when it was chosen. */
  ghost predicate SaidAsCommanded(log: Log, n: nat) {
    match LastCommand(log)
    case None => CommandPushes(log) == []
    case Some(c) =>
      && AllAre(CommandPushes(log), PushFor(c))
      && var reqs := ChoiceRequests(log);
         var f := FirstRequest(reqs, TopicFor(c));
         (f < |reqs| && Rank(reqs, TopicFor(c)) < n ==> CommandPushes(log) == [Send(PushFor(c), reqs[f].from)])
  }

  lemma {:induction false} CarriedOutAsSaid(log: Log, n: nat)
    requires CarriedOut(log, n)
    ensures SaidAsCommanded(log, n)
  {
    hide CommandPacket, FirstRequest, Rank, Push, PushFor, TopicFor;
    ChoiceOfCommand(log);
    if LastCommand(log).Some? {
      var c := LastCommand(log).value;
      PushOfCommand(c);
      DueAre(ChoiceRequests(log), Requests(log), CommandPacket(c), n, CommandPushes(log));
      CarriedOutMeans(log, n, CommandPacket(c));
    }
  }

  /** In every run the pushes other than gas that follow a command carry its topic and its
      text: after "ON" for the light "    ON" on topic Light, after "OFF" "    OFF", and the
      washer's commands likewise on topic Washer. This holds of every command before the
      last, of the last one when the menu prompts, and of what has been pushed so far of one
      under way. */
  lemma {:induction false} CommandsSayWhatWasChosen(cfg: Config, steps: seq<Step>)
    ensures var s := Exec(cfg, steps);
      && (forall j :: 0 <= j < |s.log| && s.log[j].MenuChose? ==> SaidAsCommanded(s.log[..j], cfg.serverTopics))
      && (s.host.menu.Prompt? ==> SaidAsCommanded(s.log, cfg.serverTopics))
      && (s.host.menu.Scanning? ==>
            LastCommand(s.log).Some? && AllAre(CommandPushes(s.log), PushFor(LastCommand(s.log).value)))
  {
    hide Exec, CarriedOut, DueBetween, SaidAsCommanded, CommandPacket, Push, PushFor;
    var n, s := cfg.serverTopics, Exec(cfg, steps);
    CommandsAreCarriedOut(cfg, steps);
    forall j | 0 <= j < |s.log| && s.log[j].MenuChose? ensures SaidAsCommanded(s.log[..j], n) {
      CarriedOutAsSaid(s.log[..j], n);
    }
    match s.host.menu
    case Prompt => CarriedOutAsSaid(s.log, n);
    case Scanning(p, i, job) =>
      ChoiceOfCommand(s.log);
      PushOfCommand(LastCommand(s.log).value);
      DueAre(ChoiceRequests(s.log), Requests(s.log), p, i, CommandPushes(s.log) + Left(job));
      assert AllAre(CommandPushes(s.log), Push(p)) by {
        assert forall k :: 0 <= k < |CommandPushes(s.log)| ==>
          (CommandPushes(s.log) + Left(job))[k] == CommandPushes(s.log)[k];
      }
  }
}
