/** Where the guarantees end, exactly: for each property that some runs lack, the
    installations (or the sensor's own count) for which every run has it. */
module Limits {
  import opened Packets
  import opened Numerals
  import opened Topics
  import opened Network
  import opened Causality
  import opened Invariant
  import opened HostSteps
  import opened Guarantees
  import opened Delivery
  import opened Served
  import opened ServerFlag
  import opened SharedSlot
  import opened Scenarios
  import opened NodeSlots
  import opened Counterexamples
  import MoteSpec
  import MoteSteps

  lemma {:induction false} NodeOfKind(cfg: Config, kind: MoteSpec.Kind) returns (id: nat)
    requires kind in cfg.kinds
    ensures IsKind(cfg, id, kind)
  {
    id :| id < |cfg.kinds| && cfg.kinds[id] == kind;
  }

  // ---------- The shared retransmission slot

  ghost predicate EveryRunCopies(cfg: Config) {
    forall s :: CanReach(cfg, s) ==> OnlyCopies(s.log)
  }

  ghost predicate EveryRunServesSubscribers(cfg: Config) {
    forall s :: CanReach(cfg, s) ==> PushesReachSubscribers(s.log)
  }

  /** That in every run every packet the server sends is one it was given for that very
      address, and likewise that every push goes to a subscriber of its topic, holds exactly
      in the installations that lack a light, a gas sensor or an alarm, or have a table of
      fewer than two slots. */
  lemma {:induction false} SlotIsSafeExactly(cfg: Config)
    ensures EveryRunCopies(cfg) <==> !MayMix(cfg)
    ensures EveryRunServesSubscribers(cfg) <==> !MayMix(cfg)
  {
    hide Leads, MayMix, OnlyCopies, PushesReachSubscribers;
    if MayMix(cfg) {
      MixingRun(cfg);
    } else {
      forall s | CanReach(cfg, s) ensures OnlyCopies(s.log) && PushesReachSubscribers(s.log) {
        NeverMixes(cfg, s);
      }
    }
  }

  lemma {:induction false} NeverMixes(cfg: Config, s: Sys)
    requires CanReach(cfg, s) && !MayMix(cfg)
    ensures OnlyCopies(s.log) && PushesReachSubscribers(s.log)
  {
    hide Continue, MayMix, OnlyCopies, PushesReachSubscribers;
    var steps :| Continue(Init(cfg), steps) == s;
    SharedSlot.AlwaysCopies(cfg, steps);
  }

  lemma {:induction false} MixingRun(cfg: Config)
    requires MayMix(cfg)
    ensures !EveryRunCopies(cfg) && !EveryRunServesSubscribers(cfg)
  {
    hide Leads, Inv, OnlyCopies, SubscribedTo;
    var light := NodeOfKind(cfg, MoteSpec.Light);
    var gas := NodeOfKind(cfg, MoteSpec.Gas);
    var alarm := NodeOfKind(cfg, MoteSpec.Alarm);
    var s, m := GasReachesTheLight(cfg, light, gas, alarm);
    assert !PushesReachSubscribers(s.log);
    if OnlyCopies(s.log) {
      InvIsCausal(cfg, s);
      CopiesReachSubscribers(cfg, s.log);
    }
  }

  lemma {:induction false} InvIsCausal(cfg: Config, s: Sys)
    requires CanReach(cfg, s)
    ensures Causal(cfg, s.log)
  {
    hide Leads, MoteOk, HostOk, Causal;
    ReachableState(cfg, s);
  }

  // ---------- The server's flag

  ghost predicate FlagAlwaysTrue(cfg: Config) {
    forall s :: CanReach(cfg, s) ==> FlagIsTrue(s)
  }

  /** That in every run `ackRcv` stands for a PUSHACK, received since the last push, whenever
      a PUSHACK is awaited, holds exactly in the installations without a light or with a
      table of no slots. */
  lemma {:induction false} FlagMeansPushAckExactly(cfg: Config)
    ensures FlagAlwaysTrue(cfg) <==> !(HasLight(cfg) && cfg.serverTopics >= 1)
  {
    hide Leads, FlagIsTrue;
    if HasLight(cfg) && cfg.serverTopics >= 1 {
      var light := NodeOfKind(cfg, MoteSpec.Light);
      var s := HelloCountsForPush(cfg, light);
      HelloIsNoPushAck(s, light);
    } else {
      forall s | CanReach(cfg, s) ensures FlagIsTrue(s) { FlagOfState(cfg, s); }
    }
  }

  lemma {:induction false} FlagOfState(cfg: Config, s: Sys)
    requires CanReach(cfg, s) && (!HasLight(cfg) || cfg.serverTopics == 0)
    ensures FlagIsTrue(s)
  {
    hide Continue, FlagIsTrue, HasLight;
    var steps :| Continue(Init(cfg), steps) == s;
    FlagIsTrueWithoutLight(cfg, steps);
  }

  lemma {:induction false} HelloIsNoPushAck(s: Sys, light: nat)
    requires s.host.g.ackRcv && s.host.g.ackTypeWanted == PUSHACK
    requires s.host.udp.Dispatching? && s.host.udp.m.pkt == HelloInit()
    requires forall m: Msg :: m.pkt.mst == PUSHACK ==> Handled(m) !in s.log
    ensures !FlagIsTrue(s)
  {
    hide PushAcked;
    if PushAcked(s.log) { PushAckedWasHandled(s.log); }
  }

  // ---------- The acknowledgement of a push

  /** If a PUSHACK counts for the k-th gas push, the address it was for handled that push. */
  ghost predicate AckedPushHandled(s: Sys, k: nat)
    requires k >= 1
  {
    |Pushed(s.log)| == k && s.host.g.ackTypeWanted == PUSHACK && s.host.g.ackRcv ==>
      var push := Pushed(s.log)[k - 1];
      Handled(Msg(Server, push.dst, push.pkt)) in s.log
  }

  ghost predicate AckedPushAlwaysHandled(cfg: Config, k: nat)
    requires k >= 1
  {
    forall s :: CanReach(cfg, s) ==> AckedPushHandled(s, k)
  }

  /** Gas values can be pushed. */
  predicate CanPush(cfg: Config) {
    MoteSpec.Gas in cfg.kinds && MoteSpec.Alarm in cfg.kinds && cfg.serverTopics >= 1
  }

  /** Without a light, where the flag does stand for a PUSHACK: it stands for the handling of
      the push it acknowledges, in every run, if that is the first one, and for no later one
      in any installation that can push. */
  lemma {:induction false} AckedPushIsHandledExactly(cfg: Config, k: nat)
    requires !HasLight(cfg) && k >= 1
    ensures AckedPushAlwaysHandled(cfg, k) <==> k == 1 || !CanPush(cfg)
  {
    hide Leads, AckedPushHandled, HasLight;
    if k == 1 || !CanPush(cfg) {
      forall s | CanReach(cfg, s) ensures AckedPushHandled(s, k) {
        if CanPush(cfg) { FirstPushHandled(cfg, s); } else { NothingPushed(cfg, s, k); }
      }
    } else {
      var alarm := NodeOfKind(cfg, MoteSpec.Alarm);
      var gas := NodeOfKind(cfg, MoteSpec.Gas);
      var s := OldPushAckCounts(cfg, alarm, gas, k);
      LastPushLost(s, k);
    }
  }

  lemma {:induction false} LastPushLost(s: Sys, k: nat)
    requires k >= 1 && |Pushed(s.log)| == k && s.host.g.ackTypeWanted == PUSHACK && s.host.g.ackRcv
    requires Handled(Msg(Server, Pushed(s.log)[k - 1].dst, Pushed(s.log)[k - 1].pkt)) !in s.log
    ensures !AckedPushHandled(s, k)
  {
  }

  lemma {:induction false} PushedWasGiven(log: Log, k: nat) returns (m: Msg)
    requires k < |Pushed(log)|
    ensures Given(m) in log && IsGasPush(m.pkt)
  {
    var before, last := log[..|log| - 1], log[|log| - 1];
    assert log == before + [last];
    if k < |Pushed(before)| { m := PushedWasGiven(before, k); } else { m := last.m; }
  }

  lemma {:induction false} NothingPushed(cfg: Config, s: Sys, k: nat)
    requires CanReach(cfg, s) && !CanPush(cfg) && !HasLight(cfg) && k >= 1
    ensures AckedPushHandled(s, k)
  {
    hide Continue, Pushed, Owed, Pending, UdpServed, MenuServed, GivenServed, Causal;
    if |Pushed(s.log)| == k {
      var steps :| Continue(Init(cfg), steps) == s;
      ServerReachable(cfg, steps);
      ReachableTable(cfg, s);
      InvIsCausal(cfg, s);
      var m := PushedWasGiven(s.log, 0);
      GivenNeedsTable(s.log, s.host.topics);
      PushTopic(cfg, s.log, m);
    }
  }

  lemma {:induction false} ReachableTable(cfg: Config, s: Sys)
    requires CanReach(cfg, s)
    ensures |s.host.topics| == cfg.serverTopics
  {
    hide Leads, Causal, MoteOk, GlobalsOk, UdpOk, MenuOk, TableOk, Requests;
    ReachableState(cfg, s);
  }

  /** The push behind a PUSHACK: the node that sent it handled one. */
  lemma {:induction false} PushAckCause(cfg: Config, log: Log, m: Msg) returns (id: nat, q: Packet)
    requires Causal(cfg, log) && Sent(m) in log && m.dst == Server && m.pkt.mst == PUSHACK
    ensures q.mst == PUSH && Handled(Msg(Server, Mote(id), q)) in log
  {
    hide Causal, MoteMay;
    FromMote(cfg, log, m);
    id := m.src.id;
    PushAckNeedsPush(cfg, log, id, m.pkt);
    var text :| PushRead(log, id, text);
    q :| q.mst == PUSH && q.payload == text && Handled(Msg(Server, Mote(id), q)) in log;
  }

  lemma {:induction false} PushAckNeedsPush(cfg: Config, log: Log, id: nat, p: Packet)
    requires id < |cfg.kinds| && MoteMay(cfg, log, id, p) && p.mst == PUSHACK
    ensures PushHandled(log, id)
  {
    hide GasValueSent, PushHandled, MoteSpec.TopicOf;
    if GasValueSent(log, id, p) { GasValueIsPublish(log, id, p); }
  }

  /** When one push was given, a handled push is that one. */
  lemma {:induction false} OnlyPush(cfg: Config, log: Log, id: nat, q: Packet)
    requires Causal(cfg, log) && !HasLight(cfg) && |Pushed(log)| == 1
    requires q.mst == PUSH && Handled(Msg(Server, Mote(id), q)) in log
    ensures Pushed(log)[0] == Send(q, Mote(id))
  {
    hide Causal, HostMay, Pushed;
    var m := Msg(Server, Mote(id), q);
    CauseOf(cfg, log, Handled(m));
    CauseOf(cfg, log, Sent(m));
    if Given(m) in log {
      OneOfPushed(cfg, log, m);
    } else {
      var d: Addr :| Given(Msg(Server, d, q)) in log;
      var p: Packet :| p.mst == PUSH && Given(Msg(Server, Mote(id), p)) in log;
      OneOfPushed(cfg, log, Msg(Server, d, q));
      OneOfPushed(cfg, log, Msg(Server, Mote(id), p));
    }
  }

  lemma {:induction false} OneOfPushed(cfg: Config, log: Log, m: Msg)
    requires Causal(cfg, log) && !HasLight(cfg) && Given(m) in log && m.pkt.mst == PUSH
    ensures Send(m.pkt, m.dst) in Pushed(log)
  {
    hide Causal, Pushed;
    PushTopic(cfg, log, m);
    GivenIsPushed(log, m);
  }

  lemma {:induction false} FirstPushHandled(cfg: Config, s: Sys)
    requires CanReach(cfg, s) && !HasLight(cfg)
    ensures AckedPushHandled(s, 1)
  {
    hide Leads, Causal, Pushed, PushAcked, HasLight;
    if |Pushed(s.log)| == 1 && s.host.g.ackTypeWanted == PUSHACK && s.host.g.ackRcv {
      InvIsCausal(cfg, s);
      FlagOfState(cfg, s);
      var m := PushAckInLog(cfg, s);
      var id, q := PushAckCause(cfg, s.log, m);
      OnlyPush(cfg, s.log, id, q);
    }
  }

  lemma {:induction false} PushAckInLog(cfg: Config, s: Sys) returns (m: Msg)
    requires CanReach(cfg, s) && (PushAcked(s.log) || PushAckAtHand(s.host.udp))
    ensures Sent(m) in s.log && m.dst == Server && m.pkt.mst == PUSHACK
  {
    hide Leads, Causal, MoteOk, GlobalsOk, MenuOk, TableOk, TableAfter, Requests, PushAcked;
    ReachableState(cfg, s);
    if PushAckAtHand(s.host.udp) {
      m := s.host.udp.m;
    } else {
      PushAckedWasHandled(s.log);
      m :| m.dst == Server && m.pkt.mst == PUSHACK && Handled(m) in s.log;
      CauseOf(cfg, s.log, Handled(m));
    }
  }

  // ---------- The acknowledgement of a published value

  /** If its k-th value is in the slot and counts as acknowledged, the server handled it. */
  ghost predicate AckedValueHandled(s: Sys, id: nat, k: nat)
    requires id < |s.motes|
  {
    var a := s.motes[id].ack;
    Publishes(s.log, id) == k && a.slot.Some? && a.slot.value.pkt.mst == PUBLISH && a.rcv ==>
      Handled(Msg(Mote(id), Server, a.slot.value.pkt)) in s.log
  }

  ghost predicate AckedValueAlwaysHandled(cfg: Config, id: nat, k: nat) {
    forall s :: CanReach(cfg, s) && id < |s.motes| ==> AckedValueHandled(s, id, k)
  }

  lemma {:induction false} FirstValueHandled(cfg: Config, s: Sys, id: nat)
    requires CanReach(cfg, s) && id < |s.motes|
    ensures AckedValueHandled(s, id, 1)
  {
    hide Continue, Publishes, HandledType, FirstFree, Find, Causal, HostOk, MoteOk;
    var steps :| Continue(Init(cfg), steps) == s;
    ReachableState(cfg, s);
    if s.motes[id].ack.slot.Some? && s.motes[id].ack.rcv { AckSoundness(cfg, steps, id); }
  }

  /** "Resent until acknowledged" protects a sensor's first value and no other: whether its
      k-th value, once acknowledged, was always handled, is whether k is 1. */
  lemma {:induction false} AckedValueIsHandledExactly(cfg: Config, gas: nat, k: nat)
    requires IsKind(cfg, gas, MoteSpec.Gas) && k >= 1
    ensures AckedValueAlwaysHandled(cfg, gas, k) <==> k == 1
  {
    hide Leads, Publishes, AckedValueHandled;
    if k == 1 {
      forall s | CanReach(cfg, s) && gas < |s.motes| ensures AckedValueHandled(s, gas, k) {
        FirstValueHandled(cfg, s, gas);
      }
    } else {
      var s := LaterValueLost(cfg, gas, k);
      LostIsUnhandled(s, gas, k);
    }
  }

  lemma {:induction false} LostIsUnhandled(s: Sys, id: nat, k: nat)
    requires id < |s.motes| && Publishes(s.log, id) == k
    requires var a := s.motes[id].ack;
      a.rcv && a.slot.Some? && a.slot.value.pkt.mst == PUBLISH &&
      Handled(Msg(Mote(id), Server, a.slot.value.pkt)) !in s.log
    ensures !AckedValueHandled(s, id, k)
  {
    hide Publishes;
  }

  /** However this run goes on, the next value will have been handled once it is acknowledged. */
  ghost predicate NextValueSafe(s: Sys, id: nat) {
    forall s' :: Leads(s, s') && id < |s'.motes| ==> AckedValueHandled(s', id, Publishes(s.log, id) + 1)
  }

  /** The same at any moment of any run: for a connected gas sensor, going on is safe if and
      only if it has published nothing, or the value it is about to repeat has been handled
      before, or the server holds that value and has never sent the node a PUBACK. */
  lemma {:induction false} NextValueIsSafeExactly(cfg: Config, s: Sys, id: nat)
    requires CanReach(cfg, s) && id < |s.motes| && s.motes[id].connected && s.motes[id].kind == MoteSpec.Gas
    ensures NextValueSafe(s, id) <==>
      || Publishes(s.log, id) == 0
      || Handled(NextMsg(s, id)) in s.log
      || (Holds(s.host.udp, NextMsg(s, id)) && NeverPubAcked(s.log, id))
  {
    hide Leads, Publishes, AckedValueHandled, Holds, NextMsg, NextValue, NeverPubAcked;
    if Publishes(s.log, id) == 0 {
      forall s' | Leads(s, s') && id < |s'.motes| ensures AckedValueHandled(s', id, 1) {
        LeadsOn(Init(cfg), s, s');
        FirstValueHandled(cfg, s', id);
      }
    } else if InServersHands(s, id, NextMsg(s, id)) {
      forall s' | Leads(s, s') && id < |s'.motes| ensures AckedValueHandled(s', id, Publishes(s.log, id) + 1) {
        RepeatedValueHandled(cfg, s, s', id);
      }
    } else {
      var s' := OldAckCountsForNewValue(cfg, s, id);
      LostIsUnsafe(s, s', id);
    }
  }

  lemma {:induction false} LostIsUnsafe(s: Sys, s': Sys, id: nat)
    requires id < |s.motes| && NextValueLost(s, s', id)
    ensures !AckedValueHandled(s', id, Publishes(s.log, id) + 1)
  {
    hide Publishes, NextValue;
  }

  lemma {:induction false} RepeatedValueHandled(cfg: Config, s: Sys, s': Sys, id: nat)
    requires CanReach(cfg, s) && Leads(s, s') && id < |s.motes| && id < |s'.motes|
    requires s.motes[id].kind == MoteSpec.Gas && InServersHands(s, id, NextMsg(s, id))
    ensures AckedValueHandled(s', id, Publishes(s.log, id) + 1)
  {
    hide Continue, Publishes, Holds, NeverPubAcked, Publish, Dec, GasAfter, MoteSpec.NextGas, HostOk, Causal, AckOk,
         PushedOk;
    var steps :| Continue(s, steps) == s';
    StaysInHands(cfg, s, steps, id, NextMsg(s, id));
    LeadsOn(Init(cfg), s, s');
    ReachableState(cfg, s);
    ReachableState(cfg, s');
    assert MoteOk(cfg, s.log, id, s.motes[id]) && MoteOk(cfg, s'.log, id, s'.motes[id]);
    MoteSteps.NextGasIsAfter(Publishes(s.log, id));
    var a := s'.motes[id].ack;
    if a.slot.Some? && a.slot.value.pkt.mst == PUBLISH && a.rcv { AckedSlot(cfg, s', id); }
  }

  // ---------- The subscription of a connected node

  /** Every connected node, except gas sensors, is a subscriber of its topic. */
  ghost predicate ConnectedHaveSubscribed(s: Sys) {
    forall id :: 0 <= id < |s.motes| && s.motes[id].connected && s.motes[id].kind != MoteSpec.Gas ==>
      SubscribedTo(s.log, MoteSpec.TopicOf(s.motes[id].kind), Mote(id))
  }

  ghost predicate ConnectedAlwaysSubscribed(cfg: Config) {
    forall s :: CanReach(cfg, s) ==> ConnectedHaveSubscribed(s)
  }

  /** That a connected node has subscribed holds in every run exactly in the installations
      where nobody is to subscribe: the CONNECT takes the place of the SUBSCRIBE in the slot,
      so a SUBSCRIBE that is lost is lost for good. */
  lemma {:induction false} ConnectedSubscribedExactly(cfg: Config)
    ensures ConnectedAlwaysSubscribed(cfg) <==> forall id :: 0 <= id < |cfg.kinds| ==> cfg.kinds[id] == MoteSpec.Gas
  {
    hide Leads, SubscribedTo, MoteSpec.TopicOf;
    if id :| 0 <= id < |cfg.kinds| && cfg.kinds[id] != MoteSpec.Gas {
      var s := ConnectedUnsubscribed(cfg, id);
      KindsAreFixed(cfg, s);
      assert !ConnectedHaveSubscribed(s);
    } else {
      forall s | CanReach(cfg, s) ensures ConnectedHaveSubscribed(s) { KindsAreFixed(cfg, s); }
    }
  }

  lemma {:induction false} KindsAreFixed(cfg: Config, s: Sys)
    requires CanReach(cfg, s)
    ensures |s.motes| == |cfg.kinds| && forall id :: 0 <= id < |s.motes| ==> s.motes[id].kind == cfg.kinds[id]
  {
    hide Leads, Causal, HostOk, AckOk, PushedOk, Publishes;
    ReachableState(cfg, s);
    forall id | 0 <= id < |s.motes| ensures s.motes[id].kind == cfg.kinds[id] {
      assert MoteOk(cfg, s.log, id, s.motes[id]);
    }
  }

  // ---------- The alarm

  ghost predicate AlarmCanRing(cfg: Config) {
    exists s, id, reading :: CanReach(cfg, s) && AlarmRaised(id, reading) in s.log
  }

  /** An alarm can go off exactly in the installations with an alarm, a gas sensor and a slot
      in the table. */
  lemma {:induction false} AlarmCanRingExactly(cfg: Config)
    ensures AlarmCanRing(cfg) <==>
      MoteSpec.Alarm in cfg.kinds && MoteSpec.Gas in cfg.kinds && cfg.serverTopics >= 1
  {
    hide Leads;
    if AlarmCanRing(cfg) {
      var s, id, reading :| CanReach(cfg, s) && AlarmRaised(id, reading) in s.log;
      RingingNeeds(cfg, s, id, reading);
    }
    if MoteSpec.Alarm in cfg.kinds && MoteSpec.Gas in cfg.kinds && cfg.serverTopics >= 1 {
      var alarm := NodeOfKind(cfg, MoteSpec.Alarm);
      var gas := NodeOfKind(cfg, MoteSpec.Gas);
      var s := AlarmRings(cfg, alarm, gas);
    }
  }

  lemma {:induction false} RingingNeeds(cfg: Config, s: Sys, id: nat, reading: int)
    requires CanReach(cfg, s) && AlarmRaised(id, reading) in s.log
    ensures MoteSpec.Alarm in cfg.kinds && MoteSpec.Gas in cfg.kinds && cfg.serverTopics >= 1
  {
    hide Continue, Publishes, PushRead, Causal, ServerInv;
    var steps :| Continue(Init(cfg), steps) == s;
    InvIsCausal(cfg, s);
    CauseOf(cfg, s.log, AlarmRaised(id, reading));
    var i :| 0 <= i < |s.log| && s.log[i] == AlarmRaised(id, reading);
    var j := AlarmCausality(cfg, steps, i);
    CauseAt(cfg, s.log, j);
    var text :| PushRead(s.log, id, text);
    PushNeedsTable(cfg, s, id, text);
  }

  /** A push that was read was given, and what is given is in the table. */
  lemma {:induction false} PushNeedsTable(cfg: Config, s: Sys, id: nat, text: string)
    requires CanReach(cfg, s) && PushRead(s.log, id, text)
    ensures cfg.serverTopics >= 1
  {
    hide Continue, Causal, MoteOk, GlobalsOk, UdpOk, MenuOk, TableOk, Requests, UdpServed, MenuServed, Owed, Pushed,
         Pending, HostMay, MoteMay, SendServed;
    var steps :| Continue(Init(cfg), steps) == s;
    ReachableState(cfg, s);
    ServerReachable(cfg, steps);
    var q: Packet :| q.mst == PUSH && Handled(Msg(Server, Mote(id), q)) in s.log;
    CauseOf(cfg, s.log, Handled(Msg(Server, Mote(id), q)));
    CauseOf(cfg, s.log, Sent(Msg(Server, Mote(id), q)));
    assert PushGiven(s.log);
    GivenNeedsTable(s.log, s.host.topics);
  }
}
