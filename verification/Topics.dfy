/** The broker's topic table: `struct Topic topics[N]`, one optional entry per slot.

    A slot whose `name` is NULL is `None`. An entry of `ips` that was never written is
    `None`, and a push to it goes nowhere. Table loops stop at the end of the array. */
module Topics {
  import opened Packets

  datatype Topic = Topic(name: string, ips: seq<Option<Addr>>)

  type Table = seq<Option<Topic>>

  predicate IsAt(t: Table, i: nat, name: string)
    requires i < |t|
  {
    t[i].Some? && t[i].value.name == name
  }

  /** The first slot holding a name, or the table size. */
  function Find(t: Table, name: string): (i: nat)
    ensures i <= |t|
    ensures i < |t| ==> IsAt(t, i, name)
    ensures forall k :: 0 <= k < i ==> !IsAt(t, k, name)
  {
    if t == [] || IsAt(t, 0, name) then 0
    else
      var i := Find(t[1..], name);
      assert forall k :: 0 < k < |t| ==> IsAt(t, k, name) == IsAt(t[1..], k - 1, name);
      i + 1
  }

  /** The first empty slot, or the table size. */
  function FirstFree(t: Table): (i: nat)
    ensures i <= |t|
    ensures i < |t| ==> t[i].None?
    ensures forall k :: 0 <= k < i ==> t[k].Some?
  {
    if t == [] || t[0].None? then 0
    else
      var i := FirstFree(t[1..]);
      assert forall k :: 0 < k < i + 1 ==> t[k] == t[1..][k - 1];
      i + 1
  }

  /** The two entries of a new topic: the second is never written. */
  function NewTopic(name: string, from: Addr): Topic {
    Topic(name, [Some(from), None])
  }

  /** The SUBSCRIBE case. The test that would add a second subscriber compares the
      address of an array element with NULL, so a name already present changes nothing. */
  function Register(t: Table, name: string, from: Addr): (r: Table)
    ensures |r| == |t|
  {
    if Find(t, name) < |t| || FirstFree(t) == |t| then t
    else t[FirstFree(t) := Some(NewTopic(name, from))]
  }

  /** One push for each filled entry, in order. */
  function EntryPushes(ips: seq<Option<Addr>>, p: Packet): seq<Send> {
    if ips == [] then []
    else
      EntryPushes(ips[..|ips| - 1], p) +
      if ips[|ips| - 1].Some? then [Send(Push(p), ips[|ips| - 1].value)] else []
  }

  function SlotPushes(slot: Option<Topic>, p: Packet): seq<Send> {
    if slot.Some? && slot.value.name == p.option then EntryPushes(slot.value.ips, p) else []
  }

  /** What scanning the slots of t, in order, sends for a published packet. */
  function Pushes(t: Table, p: Packet): seq<Send> {
    if t == [] then [] else Pushes(t[..|t| - 1], p) + SlotPushes(t[|t| - 1], p)
  }

  /** The slots the PUBLISH case looks at: its loop stops after index 1 whatever the
      size of the table, while the menu's `publishTo` scans the whole table. */
  function PublishSlots(t: Table): Table {
    if |t| <= 2 then t else t[..2]
  }

  // ---------- The shape of every reachable table

  predicate WellFormed(t: Table) {
    && (forall i :: FirstFree(t) <= i < |t| ==> t[i].None?)
    && (forall i, j :: 0 <= i < j < FirstFree(t) ==> t[i].value.name != t[j].value.name)
    && (forall i :: 0 <= i < FirstFree(t) ==> SingleSubscriber(t[i].value))
  }

  predicate SingleSubscriber(topic: Topic) {
    |topic.ips| == 2 && topic.ips[0].Some? && topic.ips[1].None?
  }

  lemma {:induction false} RegisterKeepsWellFormed(t: Table, name: string, from: Addr)
    requires WellFormed(t)
    ensures WellFormed(Register(t, name, from))
    ensures forall i :: 0 <= i < |t| && t[i].Some? ==> Register(t, name, from)[i] == t[i]
  {
    var r := Register(t, name, from);
    if r != t {
      var k := FirstFree(t);
      FreeAfterRegister(t, name, from);
      forall i | 0 <= i < k ensures r[i].value.name != r[k].value.name {
        assert !IsAt(t, i, name);
      }
    }
  }

  lemma {:induction false} PushesOfNoMatch(t: Table, p: Packet)
    requires Find(t, p.option) == |t|
    ensures Pushes(t, p) == []
  {
    if t != [] {
      var s := t[..|t| - 1];
      assert forall k :: 0 <= k < |t| ==> !IsAt(t, k, p.option);
      assert forall k :: 0 <= k < |s| ==> IsAt(s, k, p.option) == IsAt(t, k, p.option);
      assert Find(s, p.option) == |s|;
      assert !IsAt(t, |t| - 1, p.option);
      PushesOfNoMatch(s, p);
    }
  }

  /** Publish exactness, for any table whose names are distinct: the scan emits the
      entries of the matching topic, in order, and nothing for any other topic. */
  lemma {:induction false} PushesOfMatch(t: Table, p: Packet)
    requires forall i, j :: 0 <= i < j < |t| && t[i].Some? && t[j].Some? ==> t[i].value.name != t[j].value.name
    requires Find(t, p.option) < |t|
    ensures Pushes(t, p) == EntryPushes(t[Find(t, p.option)].value.ips, p)
  {
    var f := Find(t, p.option);
    var s, last := t[..|t| - 1], |t| - 1;
    assert forall k :: 0 <= k < |s| ==> s[k] == t[k];
    assert IsAt(t, f, p.option);
    if f == last {
      assert forall k :: 0 <= k < |s| ==> !IsAt(t, k, p.option);
      assert Find(s, p.option) == |s|;
      PushesOfNoMatch(s, p);
    } else {
      assert Find(s, p.option) == f by {
        assert IsAt(s, f, p.option);
        assert forall k :: 0 <= k < f ==> !IsAt(t, k, p.option) && !IsAt(s, k, p.option);
      }
      PushesOfMatch(s, p);
      assert SlotPushes(t[last], p) == [];
    }
  }

  lemma {:induction false} EntryPushesOfPair(ips: seq<Option<Addr>>, p: Packet)
    requires |ips| == 2
    ensures EntryPushes(ips, p) ==
      (if ips[0].Some? then [Send(Push(p), ips[0].value)] else []) +
      (if ips[1].Some? then [Send(Push(p), ips[1].value)] else [])
  {
    assert ips[..1] == [ips[0]];
    assert [ips[0]][..0] == [];
    assert EntryPushes([], p) == [];
    assert EntryPushes([ips[0]], p) == if ips[0].Some? then [Send(Push(p), ips[0].value)] else [];
  }

  // ---------- Any sequence of SUBSCRIBE packets, from the empty table

  datatype Request = Request(name: string, from: Addr)

  function EmptyTable(n: nat): (t: Table)
    ensures |t| == n && forall i :: 0 <= i < n ==> t[i].None?
  {
    seq(n, _ => None)
  }

  function TableAfter(reqs: seq<Request>, n: nat): (t: Table)
    ensures |t| == n
  {
    if reqs == [] then EmptyTable(n)
    else
      var r := reqs[|reqs| - 1];
      Register(TableAfter(reqs[..|reqs| - 1], n), r.name, r.from)
  }

  function Names(reqs: seq<Request>): (names: set<string>)
    ensures forall k :: 0 <= k < |reqs| ==> reqs[k].name in names
  {
    set k | 0 <= k < |reqs| :: reqs[k].name
  }

  /** The first request for a name, or the number of requests. */
  function FirstRequest(reqs: seq<Request>, name: string): (i: nat)
    ensures i <= |reqs|
    ensures i < |reqs| ==> reqs[i].name == name
    ensures forall k :: 0 <= k < i ==> reqs[k].name != name
  {
    if reqs == [] || reqs[0].name == name then 0 else FirstRequest(reqs[1..], name) + 1
  }

  /** How many other names were requested before this one. */
  function Rank(reqs: seq<Request>, name: string): nat {
    |Names(reqs[..FirstRequest(reqs, name)])|
  }

  lemma {:induction false} NamesSnoc(reqs: seq<Request>, r: Request)
    ensures Names(reqs + [r]) == Names(reqs) + {r.name}
  {
    var all := reqs + [r];
    assert all[|reqs|] == r;
    assert forall k :: 0 <= k < |reqs| ==> all[k] == reqs[k];
    forall x | x in Names(reqs) ensures x in Names(all) {
      var k :| 0 <= k < |reqs| && reqs[k].name == x;
      assert all[k].name == x;
    }
  }

  lemma {:induction false} FirstRequestSnoc(reqs: seq<Request>, r: Request, name: string)
    ensures FirstRequest(reqs + [r], name) ==
      if FirstRequest(reqs, name) < |reqs| then FirstRequest(reqs, name)
      else if r.name == name then |reqs| else |reqs| + 1
    ensures Rank(reqs + [r], name) ==
      if FirstRequest(reqs, name) < |reqs| then Rank(reqs, name)
      else |Names(reqs) + (if r.name == name then {} else {r.name})|
  {
    var all, f := reqs + [r], FirstRequest(reqs, name);
    assert forall k :: 0 <= k < |reqs| ==> all[k] == reqs[k];
    assert all[|reqs|] == r;
    var g := FirstRequest(all, name);
    if f < |reqs| {
      assert all[f].name == name;
      assert g == f;
      assert all[..g] == reqs[..f];
    } else if r.name == name {
      assert g == |reqs|;
      assert all[..g] == reqs;
      assert Names(reqs) + {} == Names(reqs);
    } else {
      assert g == |all|;
      assert all[..g] == all;
      NamesSnoc(reqs, r);
    }
  }

  /** The table is a function of the request history: the k-th distinct name sits in slot
      k together with the first address that asked for it, for the first n names; later
      names and later subscribers leave no trace. */
  ghost predicate Refines(t: Table, reqs: seq<Request>) {
    && WellFormed(t)
    && FirstFree(t) == (if |Names(reqs)| < |t| then |Names(reqs)| else |t|)
    && forall name :: SlotIsHistory(t, reqs, name)
  }

  ghost predicate SlotIsHistory(t: Table, reqs: seq<Request>, name: string) {
    var f := FirstRequest(reqs, name);
    && (Find(t, name) < |t| <==> f < |reqs| && Rank(reqs, name) < |t|)
    && (Find(t, name) < |t| ==>
          && Find(t, name) == Rank(reqs, name)
          && t[Find(t, name)] == Some(NewTopic(name, reqs[f].from)))
  }

  lemma {:induction false} TableRefinesHistory(reqs: seq<Request>, n: nat)
    ensures Refines(TableAfter(reqs, n), reqs)
  {
    var t := TableAfter(reqs, n);
    if reqs == [] {
      assert Names(reqs) == {};
      assert FirstFree(t) == 0;
      forall name ensures SlotIsHistory(t, reqs, name) {}
    } else {
      var earlier, r := reqs[..|reqs| - 1], reqs[|reqs| - 1];
      TableRefinesHistory(earlier, n);
      assert reqs == earlier + [r];
      RegisterRefines(TableAfter(earlier, n), earlier, r);
    }
  }

  lemma {:induction false} RegisterRefines(t: Table, reqs: seq<Request>, r: Request)
    requires Refines(t, reqs)
    ensures Refines(Register(t, r.name, r.from), reqs + [r])
  {
    var t' := Register(t, r.name, r.from);
    RegisterKeepsWellFormed(t, r.name, r.from);
    assert SlotIsHistory(t, reqs, r.name);
    RegisterFree(t, reqs, r);
    forall name ensures SlotIsHistory(t', reqs + [r], name) {
      assert SlotIsHistory(t, reqs, name);
      RegisterSlot(t, reqs, r, name);
    }
  }

  lemma {:induction false} RegisterFree(t: Table, reqs: seq<Request>, r: Request)
    requires WellFormed(t) && SlotIsHistory(t, reqs, r.name)
    requires FirstFree(t) == (if |Names(reqs)| < |t| then |Names(reqs)| else |t|)
    ensures FirstFree(Register(t, r.name, r.from)) ==
      (if |Names(reqs + [r])| < |t| then |Names(reqs + [r])| else |t|)
  {
    NamesSnoc(reqs, r);
    NamesHasFirst(reqs, r.name);
    RankIsSmall(reqs, r.name);
    if r.name in Names(reqs) {
      assert Names(reqs) + {r.name} == Names(reqs);
    } else {
      assert |Names(reqs) + {r.name}| == |Names(reqs)| + 1;
    }
    if Find(t, r.name) == |t| && FirstFree(t) < |t| {
      FreeAfterRegister(t, r.name, r.from);
    }
  }

  lemma {:induction false} RegisterSlot(t: Table, reqs: seq<Request>, r: Request, name: string)
    requires WellFormed(t) && SlotIsHistory(t, reqs, r.name) && SlotIsHistory(t, reqs, name)
    requires FirstFree(t) == (if |Names(reqs)| < |t| then |Names(reqs)| else |t|)
    ensures SlotIsHistory(Register(t, r.name, r.from), reqs + [r], name)
  {
    FirstRequestSnoc(reqs, r, name);
    FindAfterRegister(t, r.name, r.from, name);
    RankIsSmall(reqs, name);
    RankOfAbsent(reqs, name);
    if FirstRequest(reqs, name) < |reqs| {
      RegisterKeepsWellFormed(t, r.name, r.from);
    }
  }

  lemma {:induction false} RankOfAbsent(reqs: seq<Request>, name: string)
    ensures FirstRequest(reqs, name) == |reqs| ==> Rank(reqs, name) == |Names(reqs)|
  {
    if FirstRequest(reqs, name) == |reqs| {
      assert reqs[..|reqs|] == reqs;
    }
  }

  lemma {:induction false} NamesHasFirst(reqs: seq<Request>, name: string)
    ensures name in Names(reqs) <==> FirstRequest(reqs, name) < |reqs|
  {
  }

  lemma {:induction false} RankIsSmall(reqs: seq<Request>, name: string)
    ensures FirstRequest(reqs, name) < |reqs| ==> Rank(reqs, name) < |Names(reqs)|
  {
    var f := FirstRequest(reqs, name);
    if f < |reqs| {
      SubsetSize(Names(reqs[..f]), Names(reqs), name);
    }
  }

  lemma {:induction false} SubsetSize<T>(a: set<T>, b: set<T>, x: T)
    requires a <= b && x in b && x !in a
    ensures |a| < |b|
  {
    var rest := b - a;
    assert x in rest;
    assert b == a + rest;
  }

  lemma {:induction false} FreeAfterRegister(t: Table, name: string, from: Addr)
    requires WellFormed(t) && Find(t, name) == |t| && FirstFree(t) < |t|
    ensures FirstFree(Register(t, name, from)) == FirstFree(t) + 1
  {
    var r, k := Register(t, name, from), FirstFree(t);
    assert forall i :: 0 <= i < k ==> r[i] == t[i];
    assert r[k].Some?;
    assert k + 1 < |t| ==> r[k + 1].None?;
  }

  lemma {:induction false} FindAfterRegister(t: Table, name: string, from: Addr, other: string)
    requires WellFormed(t)
    ensures Find(Register(t, name, from), other) ==
      if Find(t, name) == |t| && FirstFree(t) < |t| && other == name then FirstFree(t) else Find(t, other)
  {
    var r, k := Register(t, name, from), FirstFree(t);
    if Find(t, name) == |t| && k < |t| {
      assert forall i :: 0 <= i < |t| && i != k ==> r[i] == t[i];
      assert forall i :: 0 <= i < |t| && i != k ==> IsAt(r, i, other) == IsAt(t, i, other);
      assert !IsAt(t, k, other);
      if other == name {
        assert IsAt(r, k, other);
      } else {
        assert !IsAt(r, k, other);
        assert Find(t, other) < |t| ==> IsAt(r, Find(t, other), other);
      }
    }
  }

  // ---------- Who gets a published value

  /** The documentation promises that published packets are passed on to every
      subscriber (broker/README.md:3-5). The code does so exactly for the address that
      was the first to request the topic, and only when at most one other topic had been
      requested before it. */
  lemma {:induction false} PublishReaches(reqs: seq<Request>, n: nat, p: Packet, a: Addr)
    ensures Send(Push(p), a) in Pushes(PublishSlots(TableAfter(reqs, n)), p) <==>
      (var f := FirstRequest(reqs, p.option);
       f < |reqs| && reqs[f].from == a && Rank(reqs, p.option) < 2 && Rank(reqs, p.option) < n)
    ensures |Pushes(PublishSlots(TableAfter(reqs, n)), p)| <= 1
  {
    var t := TableAfter(reqs, n);
    TableRefinesHistory(reqs, n);
    assert SlotIsHistory(t, reqs, p.option);
    ScanReaches(t, PublishSlots(t), p);
  }

  /** The menu's `publishTo` scans the whole table, so its bound is the table size. */
  lemma {:induction false} MenuReaches(reqs: seq<Request>, n: nat, p: Packet, a: Addr)
    ensures Send(Push(p), a) in Pushes(TableAfter(reqs, n), p) <==>
      (var f := FirstRequest(reqs, p.option);
       f < |reqs| && reqs[f].from == a && Rank(reqs, p.option) < n)
    ensures |Pushes(TableAfter(reqs, n), p)| <= 1
  {
    var t := TableAfter(reqs, n);
    TableRefinesHistory(reqs, n);
    assert SlotIsHistory(t, reqs, p.option);
    ScanReaches(t, t, p);
  }

  /** The two publishing loops send the same packets unless the topic is registered in a
      slot beyond the second. */
  lemma {:induction false} LoopsAgreeExactly(reqs: seq<Request>, n: nat, p: Packet)
    ensures
      var t := TableAfter(reqs, n);
      Pushes(PublishSlots(t), p) == Pushes(t, p) <==>
        !(FirstRequest(reqs, p.option) < |reqs| && 2 <= Rank(reqs, p.option) < n)
  {
    var t := TableAfter(reqs, n);
    TableRefinesHistory(reqs, n);
    assert SlotIsHistory(t, reqs, p.option);
    ScanReaches(t, t, p);
    ScanReaches(t, PublishSlots(t), p);
  }

  lemma {:induction false} ScanReaches(t: Table, scanned: Table, p: Packet)
    requires WellFormed(t) && scanned <= t
    ensures var f := Find(t, p.option);
      Pushes(scanned, p) == if f < |scanned| then [Send(Push(p), t[f].value.ips[0].value)] else []
  {
    var f := Find(t, p.option);
    assert forall k :: 0 <= k < |scanned| ==> scanned[k] == t[k];
    assert forall k :: 0 <= k < |scanned| ==> IsAt(scanned, k, p.option) == IsAt(t, k, p.option);
    if f < |scanned| {
      assert IsAt(t, f, p.option);
      assert Find(scanned, p.option) == f;
      PushesOfMatch(scanned, p);
      EntryPushesOfPair(t[f].value.ips, p);
    } else {
      assert Find(scanned, p.option) == |scanned|;
      PushesOfNoMatch(scanned, p);
    }
  }

  /** Whoever was not the first to ask for a topic is served by neither loop, although
      every request is acknowledged. */
  lemma {:induction false} SecondSubscriberIsNotServed(reqs: seq<Request>, n: nat, p: Packet, second: Addr)
    requires FirstRequest(reqs, p.option) < |reqs| && reqs[FirstRequest(reqs, p.option)].from != second
    ensures var t := TableAfter(reqs, n);
      Send(Push(p), second) !in Pushes(t, p) && Send(Push(p), second) !in Pushes(PublishSlots(t), p)
  {
    MenuReaches(reqs, n, p, second);
    PublishReaches(reqs, n, p, second);
  }

  /** The third topic to be requested is registered and acknowledged, and values
      published to it by motes reach nobody. */
  lemma {:induction false} ThirdTopicIsNotServed(light: Addr, washer: Addr, alarm: Addr, n: nat, value: string)
    requires n >= 3
    ensures
      var reqs := [Request("Light", light), Request("WAMA/command", washer), Request("GAS", alarm)];
      && Pushes(PublishSlots(TableAfter(reqs, n)), Publish("GAS", value)) == []
      && Pushes(TableAfter(reqs, n), Publish("GAS", value)) == [Send(Push(Publish("GAS", value)), alarm)]
  {
    var p := Publish("GAS", value);
    var reqs := [Request("Light", light), Request("WAMA/command", washer), Request("GAS", alarm)];
    assert reqs[0].name[0] == 'L' && reqs[1].name[0] == 'W' && reqs[2].name[0] == 'G';
    assert FirstRequest(reqs, "GAS") == 2;
    assert reqs[..2] == [] + [reqs[0]] + [reqs[1]];
    NamesSnoc([], reqs[0]);
    NamesSnoc([] + [reqs[0]], reqs[1]);
    assert Names([]) == {};
    assert Names(reqs[..2]) == {"Light", "WAMA/command"};
    assert Rank(reqs, "GAS") == 2;
    var t := TableAfter(reqs, n);
    TableRefinesHistory(reqs, n);
    assert SlotIsHistory(t, reqs, "GAS");
    ScanReaches(t, t, p);
    ScanReaches(t, PublishSlots(t), p);
  }
}
