/** IPv6 addresses as text: what the web server's one-pass printer and the control server's
    plain printer should print, and a reader for the forms 1 and 2 of section 2.2 of
    RFC 4291 (form 3, with an embedded IPv4 address, is never printed). */
module Ipv6Text {
  import opened Packets

  type Byte = b: nat | b < 0x100
  type Group = g: nat | g < 0x1_0000

  /** The eight 16-bit groups of an address, high byte first. */
  function Groups(addr: seq<Byte>): (gs: seq<Group>)
    requires |addr| == 16
    ensures |gs| == 8
  {
    seq(8, k requires 0 <= k < 8 => 256 * (addr[2 * k] as int) + addr[2 * k + 1] as int)
  }

  // ---------- Printing

  function HexDigit(d: nat): char
    requires d < 16
  {
    if d < 10 then '0' + d as char else 'a' + (d - 10) as char
  }

  /** `%x`. */
  function Hex(g: nat): string {
    if g < 16 then [HexDigit(g)] else Hex(g / 16) + [HexDigit(g % 16)]
  }

  /** `%02x` of a byte. */
  function Hex2(b: Byte): string {
    [HexDigit(b / 16), HexDigit(b % 16)]
  }

  function Join(gs: seq<Group>): string {
    if gs == [] then "" else if |gs| == 1 then Hex(gs[0]) else Hex(gs[0]) + ":" + Join(gs[1..])
  }

  /** Where the first run of zero groups starts, or the number of groups. */
  function RunStart(gs: seq<Group>): (k: nat)
    ensures k <= |gs| && (k < |gs| ==> gs[k] == 0) && forall i :: 0 <= i < k ==> gs[i] != 0
  {
    if gs == [] || gs[0] == 0 then 0 else RunStart(gs[1..]) + 1
  }

  /** Where the zero groups from position k on end. */
  function ZerosEnd(gs: seq<Group>, k: nat): (e: nat)
    requires k <= |gs|
    ensures k <= e <= |gs| && (e < |gs| ==> gs[e] != 0) && forall i :: k <= i < e ==> gs[i] == 0
    decreases |gs| - k
  {
    if k < |gs| && gs[k] == 0 then ZerosEnd(gs, k + 1) else k
  }

  function RunEnd(gs: seq<Group>): (e: nat)
    ensures RunStart(gs) <= e <= |gs|
  {
    ZerosEnd(gs, RunStart(gs))
  }

  /** The compressed text: "::" stands for the first maximal run of zero groups, however
      short; the other groups are printed without leading zeros. */
  function Compressed(gs: seq<Group>): string {
    if RunStart(gs) == |gs| then Join(gs) else Around(gs, RunStart(gs), RunEnd(gs))
  }

  /** The groups before position k and from position e on, around a "::". */
  function Around(gs: seq<Group>, k: nat, e: nat): string
    requires k <= e <= |gs|
  {
    Join(gs[..k]) + "::" + Join(gs[e..])
  }

  /** The plain text: four digits for each group. */
  function Plain(gs: seq<Group>): string {
    if gs == [] then ""
    else if |gs| == 1 then Hex2(gs[0] / 256) + Hex2(gs[0] % 256)
    else Hex2(gs[0] / 256) + Hex2(gs[0] % 256) + ":" + Plain(gs[1..])
  }

  /** The `sprintf` of `ipv6_expander`. */
  function ExpanderText(a: seq<Byte>): string
    requires |a| == 16
  {
    Hex2(a[0]) + Hex2(a[1]) + ":" + (Hex2(a[2]) + Hex2(a[3]) + ":" + (
    Hex2(a[4]) + Hex2(a[5]) + ":" + (Hex2(a[6]) + Hex2(a[7]) + ":" + (
    Hex2(a[8]) + Hex2(a[9]) + ":" + (Hex2(a[10]) + Hex2(a[11]) + ":" + (
    Hex2(a[12]) + Hex2(a[13]) + ":" + (Hex2(a[14]) + Hex2(a[15]))))))))
  }

  // ---------- Reading

  function HexValue(c: char): Option<nat> {
    if '0' <= c <= '9' then Some((c - '0') as nat)
    else if 'a' <= c <= 'f' then Some((c - 'a') as nat + 10)
    else if 'A' <= c <= 'F' then Some((c - 'A') as nat + 10)
    else None
  }

  function ReadHex(s: string): Option<nat> {
    if s == "" then Some(0)
    else
      var high, low := ReadHex(s[..|s| - 1]), HexValue(s[|s| - 1]);
      if high.Some? && low.Some? then Some(16 * high.value + low.value) else None
  }

  /** One group: one to four hexadecimal digits. */
  function ReadGroup(s: string): Option<nat> {
    if 1 <= |s| <= 4 then ReadHex(s) else None
  }

  function Colon(s: string): (k: nat)
    ensures k <= |s| && (k < |s| ==> s[k] == ':') && forall i :: 0 <= i < k ==> s[i] != ':'
  {
    if s == "" || s[0] == ':' then 0 else Colon(s[1..]) + 1
  }

  /** The pieces between single colons. */
  function Pieces(s: string): seq<string>
    decreases |s|
  {
    if Colon(s) == |s| then [s] else [s[..Colon(s)]] + Pieces(s[Colon(s) + 1..])
  }

  function ReadPieces(ps: seq<string>): Option<seq<nat>> {
    if ps == [] then Some([])
    else
      var g, rest := ReadGroup(ps[0]), ReadPieces(ps[1..]);
      if g.Some? && rest.Some? then Some([g.value] + rest.value) else None
  }

  function ReadList(s: string): Option<seq<nat>> {
    if s == "" then Some([]) else ReadPieces(Pieces(s))
  }

  predicate DoubleAt(s: string, i: nat) {
    i + 1 < |s| && s[i] == ':' && s[i + 1] == ':'
  }

  function DoubleColon(s: string): (k: nat)
    ensures k <= |s| && (k < |s| ==> DoubleAt(s, k)) && forall i :: 0 <= i < k ==> !DoubleAt(s, i)
  {
    if s == "" || DoubleAt(s, 0) then 0
    else
      var k := DoubleColon(s[1..]);
      assert forall i :: 0 < i ==> DoubleAt(s, i) == DoubleAt(s[1..], i - 1);
      k + 1
  }

  function Zeros(n: nat): (z: seq<nat>)
    ensures |z| == n && forall i :: 0 <= i < n ==> z[i] == 0
  {
    seq(n, _ => 0)
  }

  /** Eight groups, or fewer with one "::" standing for at least one zero group. */
  function Read(s: string): Option<seq<nat>> {
    var d := DoubleColon(s);
    if d == |s| then
      var all := ReadList(s);
      if all.Some? && |all.value| == 8 then all else None
    else
      var left, right := ReadList(s[..d]), ReadList(s[d + 2..]);
      if left.Some? && right.Some? && |left.value| + |right.value| <= 7 then
        Some(left.value + Zeros(8 - |left.value| - |right.value|) + right.value)
      else None
  }

  // ---------- A single group

  lemma {:induction false} ReadHexSnoc(s: string, d: nat)
    requires d < 16 && ReadHex(s).Some?
    ensures ReadHex(s + [HexDigit(d)]) == Some(16 * ReadHex(s).value + d)
  {
    assert (s + [HexDigit(d)])[..|s|] == s;
  }

  predicate IsText(s: string) {
    forall i :: 0 <= i < |s| ==> s[i] != ':'
  }

  lemma {:induction false} HexIsGroup(g: Group)
    ensures ReadHex(Hex(g)) == Some(g) && IsText(Hex(g))
    ensures |Hex(g)| == if g < 0x10 then 1 else if g < 0x100 then 2 else if g < 0x1000 then 3 else 4
    ensures g != 0 ==> Hex(g)[0] != '0'
  {
    if g < 16 {
      assert Hex(g)[..0] == "";
    } else {
      HexIsGroup(g / 16);
      ReadHexSnoc(Hex(g / 16), g % 16);
    }
  }

  lemma {:induction false} FourDigits(g: Group)
    ensures var s := Hex2(g / 256) + Hex2(g % 256); |s| == 4 && IsText(s) && ReadHex(s) == Some(g)
  {
    var a, b := g / 256, g % 256;
    var s := Hex2(a) + Hex2(b);
    assert [HexDigit(a / 16)][..0] == "";
    ReadHexSnoc([HexDigit(a / 16)], a % 16);
    assert [HexDigit(a / 16)] + [HexDigit(a % 16)] == Hex2(a);
    ReadHexSnoc(Hex2(a), b / 16);
    ReadHexSnoc(Hex2(a) + [HexDigit(b / 16)], b % 16);
    assert Hex2(a) + [HexDigit(b / 16)] + [HexDigit(b % 16)] == s;
  }

  /** The characters addresses are printed with: `%x` gives lower-case letters. */
  predicate IsAddressChar(c: char) {
    '0' <= c <= '9' || 'a' <= c <= 'f' || c == ':'
  }

  predicate AddressChars(s: string) {
    forall i :: 0 <= i < |s| ==> IsAddressChar(s[i])
  }

  lemma {:induction false} HexChars(g: nat)
    ensures AddressChars(Hex(g)) && Hex(g) != ""
  {
    if g >= 16 { HexChars(g / 16); }
  }

  lemma {:induction false} JoinChars(gs: seq<Group>)
    ensures AddressChars(Join(gs))
  {
    if gs != [] {
      HexChars(gs[0]);
      if |gs| > 1 { JoinChars(gs[1..]); }
    }
  }

  /** Both printers use digits, lower-case letters and colons only. */
  lemma {:induction false} CompressedChars(gs: seq<Group>)
    ensures AddressChars(Compressed(gs))
  {
    hide Join;
    JoinChars(gs);
    JoinChars(gs[..RunStart(gs)]);
    JoinChars(gs[RunEnd(gs)..]);
  }

  lemma {:induction false} ExpanderChars(a: seq<Byte>)
    requires |a| == 16
    ensures AddressChars(ExpanderText(a)) && |ExpanderText(a)| == 39
  {
    hide Hex2, AddressChars, Plain;
    ExpanderIsPlain(a);
    PlainChars(Groups(a));
    PlainIsRead(Groups(a));
  }

  lemma {:induction false} PlainChars(gs: seq<Group>)
    ensures AddressChars(Plain(gs))
  {
    if gs != [] { PlainChars(gs[1..]); }
  }

  // ---------- Lists of groups

  lemma {:induction false} PiecesOfOne(h: string)
    requires IsText(h)
    ensures Pieces(h) == [h]
  {
  }

  lemma {:induction false} PiecesOfMore(h: string, rest: string)
    requires IsText(h)
    ensures Pieces(h + ":" + rest) == [h] + Pieces(rest)
  {
    var s := h + ":" + rest;
    assert s[|h|] == ':';
    assert forall i :: 0 <= i < |h| ==> s[i] == h[i];
    assert Colon(s) == |h|;
    assert s[..|h|] == h && s[|h| + 1..] == rest;
  }

  /** Text in which no colon is doubled, first or last. */
  predicate SingleColons(s: string) {
    && (s != "" ==> s[0] != ':')
    && forall i :: 0 <= i < |s| && s[i] == ':' ==> i + 1 < |s| && s[i + 1] != ':'
  }

  lemma {:induction false} SingleColonsCons(h: string, rest: string)
    requires h != "" && IsText(h) && rest != "" && SingleColons(rest)
    ensures SingleColons(h + ":" + rest)
  {
    var s := h + ":" + rest;
    forall i | 0 <= i < |s| && s[i] == ':' ensures i + 1 < |s| && s[i + 1] != ':' {
      if i > |h| { assert s[i] == rest[i - |h| - 1]; }
    }
  }

  lemma {:induction false} JoinIsRead(gs: seq<Group>)
    ensures ReadList(Join(gs)) == Some(gs) && SingleColons(Join(gs))
    ensures gs != [] ==> 2 * |gs| - 1 <= |Join(gs)| <= 5 * |gs| - 1
  {
    hide Hex, ReadHex, Pieces, ReadPieces, SingleColons, IsText;
    EmptyText();
    if gs != [] {
      HexIsGroup(gs[0]);
      if |gs| == 1 {
        PiecesOfOne(Hex(gs[0]));
        OneGroup(Hex(gs[0]), gs[0]);
        assert gs == [gs[0]];
      } else {
        JoinIsRead(gs[1..]);
        PiecesOfMore(Hex(gs[0]), Join(gs[1..]));
        SingleColonsCons(Hex(gs[0]), Join(gs[1..]));
        MoreGroups(Hex(gs[0]), gs[0], Pieces(Join(gs[1..])), gs[1..]);
        assert gs == [gs[0]] + gs[1..];
      }
    }
  }

  lemma {:induction false} OneGroup(h: string, g: Group)
    requires 1 <= |h| <= 4 && IsText(h) && ReadHex(h) == Some(g)
    ensures ReadPieces([h]) == Some([g]) && SingleColons(h)
  {
    assert [h][1..] == [];
    assert ReadPieces([h][1..]) == Some([]);
    assert [g] + [] == [g];
  }

  lemma {:induction false} EmptyText()
    ensures SingleColons("")
  {
  }

  lemma {:induction false} MoreGroups(h: string, g: Group, ps: seq<string>, gs: seq<Group>)
    requires 1 <= |h| <= 4 && ReadHex(h) == Some(g) && ReadPieces(ps) == Some(gs)
    ensures ReadPieces([h] + ps) == Some([g] + gs)
  {
    assert ([h] + ps)[1..] == ps;
  }

  lemma {:induction false} PlainIsRead(gs: seq<Group>)
    ensures ReadList(Plain(gs)) == Some(gs) && SingleColons(Plain(gs))
    ensures gs != [] ==> |Plain(gs)| == 5 * |gs| - 1
  {
    hide Hex2, ReadHex, Pieces, ReadPieces, SingleColons, IsText;
    EmptyText();
    if gs != [] {
      var h := Hex2(gs[0] / 256) + Hex2(gs[0] % 256);
      FourDigits(gs[0]);
      if |gs| == 1 {
        PiecesOfOne(h);
        OneGroup(h, gs[0]);
        assert gs == [gs[0]];
      } else {
        PlainIsRead(gs[1..]);
        PiecesOfMore(h, Plain(gs[1..]));
        SingleColonsCons(h, Plain(gs[1..]));
        MoreGroups(h, gs[0], Pieces(Plain(gs[1..])), gs[1..]);
        assert gs == [gs[0]] + gs[1..];
      }
    }
  }

  // ---------- The double colon

  lemma {:induction false} NoDouble(s: string)
    requires SingleColons(s)
    ensures DoubleColon(s) == |s| && forall i :: !DoubleAt(s, i)
  {
    forall i ensures !DoubleAt(s, i) {}
  }

  lemma {:induction false} OneDouble(a: string, b: string)
    requires SingleColons(a) && SingleColons(b)
    ensures var s := a + "::" + b;
      DoubleColon(s) == |a| && s[..|a|] == a && s[|a| + 2..] == b && forall i :: DoubleAt(s, i) <==> i == |a|
  {
    var s := a + "::" + b;
    assert DoubleAt(s, |a|);
    forall i: nat | i != |a| ensures !DoubleAt(s, i) {
      if i < |a| {
        assert s[i] == a[i];
        if i + 1 < |a| { assert s[i + 1] == a[i + 1]; }
      } else if i == |a| + 1 {
        if b != "" { assert s[i + 1] == b[0]; }
      } else if i + 1 < |s| {
        assert s[i] == b[i - |a| - 2] && s[i + 1] == b[i - |a| - 1];
      }
    }
  }

  // ---------- Main results

  lemma {:induction false} AroundIsRead(gs: seq<Group>, k: nat, e: nat)
    requires |gs| == 8 && k < e <= 8 && forall i :: k <= i < e ==> gs[i] == 0
    ensures Read(Around(gs, k, e)) == Some(gs)
  {
    hide Join, ReadList, SingleColons;
    JoinIsRead(gs[..k]);
    JoinIsRead(gs[e..]);
    OneDouble(Join(gs[..k]), Join(gs[e..]));
    assert gs == gs[..k] + Zeros(e - k) + gs[e..];
  }

  /** Reading back the compressed text of any address gives its groups. */
  lemma {:induction false} CompressedRoundTrip(gs: seq<Group>)
    requires |gs| == 8
    ensures Read(Compressed(gs)) == Some(gs)
  {
    hide Join, ReadList, SingleColons, Around;
    if RunStart(gs) == |gs| {
      JoinIsRead(gs);
      NoDouble(Join(gs));
    } else {
      assert gs[RunStart(gs)] == 0;
      AroundIsRead(gs, RunStart(gs), RunEnd(gs));
    }
  }

  lemma {:induction false} PlainRoundTrip(gs: seq<Group>)
    requires |gs| == 8
    ensures Read(Plain(gs)) == Some(gs)
  {
    hide Plain, ReadList, SingleColons;
    PlainIsRead(gs);
    NoDouble(Plain(gs));
  }

  lemma {:induction false} ExpanderIsPlain(addr: seq<Byte>)
    requires |addr| == 16
    ensures ExpanderText(addr) == Plain(Groups(addr))
  {
    hide Hex2;
    var gs := Groups(addr);
    assert gs[7..] == [gs[7]];
    forall k | 0 <= k < 8 ensures gs[k] / 256 == addr[2 * k] && gs[k] % 256 == addr[2 * k + 1] {}
    PlainTail(gs, 0);
    PlainTail(gs, 1);
    PlainTail(gs, 2);
    PlainTail(gs, 3);
    PlainTail(gs, 4);
    PlainTail(gs, 5);
    PlainTail(gs, 6);
    assert gs[0..] == gs;
  }

  lemma {:induction false} PlainTail(gs: seq<Group>, k: nat)
    requires k + 1 < |gs|
    ensures Plain(gs[k..]) == Hex2(gs[k] / 256) + Hex2(gs[k] % 256) + ":" + Plain(gs[k + 1..])
  {
    assert gs[k..][1..] == gs[k + 1..];
  }

  lemma {:induction false} ExpanderRoundTrip(addr: seq<Byte>)
    requires |addr| == 16
    ensures Read(ExpanderText(addr)) == Some(Groups(addr))
  {
    hide Plain, Read;
    ExpanderIsPlain(addr);
    PlainRoundTrip(Groups(addr));
  }

  /** The two printers print the same address. */
  lemma {:induction false} PrintersAgree(addr: seq<Byte>)
    requires |addr| == 16
    ensures Read(Compressed(Groups(addr))) == Read(ExpanderText(addr))
  {
    hide Compressed, Read;
    CompressedRoundTrip(Groups(addr));
    ExpanderRoundTrip(addr);
  }

  /** Expanding what the web server prints gives what the control server prints. */
  lemma {:induction false} ExpandingGivesPlain(addr: seq<Byte>, gs: seq<Group>)
    requires |addr| == 16 && Read(Compressed(Groups(addr))) == Some(gs)
    ensures Plain(gs) == ExpanderText(addr)
  {
    hide Compressed, Plain, Read;
    CompressedRoundTrip(Groups(addr));
    ExpanderIsPlain(addr);
  }

  /** No two addresses are printed alike. */
  lemma {:induction false} PrinterIsInjective(a: seq<Byte>, b: seq<Byte>)
    requires |a| == |b| == 16 && Compressed(Groups(a)) == Compressed(Groups(b))
    ensures a == b
  {
    hide Compressed, Read;
    CompressedRoundTrip(Groups(a));
    CompressedRoundTrip(Groups(b));
    var gs := Groups(a);
    assert gs == Groups(b);
    forall i | 0 <= i < 16 ensures a[i] == b[i] {
      var k := i / 2;
      assert gs[k] == Groups(b)[k];
    }
  }

  /** The shape of the compressed text: a "::" exactly when some group is zero, at most one,
      between 2 and 39 characters. */
  lemma {:induction false} CompressedShape(gs: seq<Group>)
    requires |gs| == 8
    ensures (exists i: nat :: DoubleAt(Compressed(gs), i)) <==> 0 in gs
    ensures forall i: nat, j: nat :: DoubleAt(Compressed(gs), i) && DoubleAt(Compressed(gs), j) ==> i == j
    ensures 2 <= |Compressed(gs)| <= 39
  {
    hide Join, ReadList, SingleColons, DoubleAt;
    var k, e := RunStart(gs), RunEnd(gs);
    if k == |gs| {
      JoinIsRead(gs);
      NoDouble(Join(gs));
    } else {
      assert gs[k] == 0;
      JoinIsRead(gs[..k]);
      JoinIsRead(gs[e..]);
      OneDouble(Join(gs[..k]), Join(gs[e..]));
      assert DoubleAt(Compressed(gs), |Join(gs[..k])|);
      assert e > k;
      assert Join([]) == "" by { EmptyJoin(); }
    }
  }

  lemma {:induction false} EmptyJoin()
    ensures Join([]) == ""
  {
  }

  // ---------- One group more

  lemma {:induction false} JoinSnoc(gs: seq<Group>, a: Group)
    ensures Join(gs + [a]) == if gs == [] then Hex(a) else Join(gs) + ":" + Hex(a)
  {
    hide Hex;
    if |gs| <= 1 {
      assert gs == [] ==> gs + [a] == [a];
      assert (gs + [a])[|gs|..] == [a];
    } else {
      assert (gs + [a])[1..] == gs[1..] + [a];
      JoinSnoc(gs[1..], a);
    }
  }

  lemma {:induction false} RunSnoc(gs: seq<Group>, a: Group)
    ensures RunStart(gs + [a]) ==
      if RunStart(gs) < |gs| then RunStart(gs) else if a == 0 then |gs| else |gs| + 1
    ensures RunEnd(gs + [a]) ==
      if RunStart(gs) < |gs| && RunEnd(gs) < |gs| then RunEnd(gs)
      else if a == 0 then |gs| + 1
      else if RunStart(gs) < |gs| then |gs|
      else |gs| + 1
  {
    var all := gs + [a];
    assert all[|gs|] == a;
    assert forall i :: 0 <= i < |gs| ==> all[i] == gs[i];
  }

  /** What the next group adds to the text, in the five situations of a one-pass printer. */
  lemma {:induction false} CompressedSnoc(gs: seq<Group>, a: Group)
    ensures Compressed(gs + [a]) ==
      if RunStart(gs) == |gs| then
        if a == 0 then Compressed(gs) + "::"
        else if gs == [] then Hex(a)
        else Compressed(gs) + ":" + Hex(a)
      else if RunEnd(gs) == |gs| then
        if a == 0 then Compressed(gs) else Compressed(gs) + Hex(a)
      else Compressed(gs) + ":" + Hex(a)
  {
    RunSnoc(gs, a);
    EmptyJoin();
    if RunStart(gs) == |gs| { NoZeroYet(gs, a); } else { ZeroSeen(gs, a); }
  }

  lemma {:induction false} NoZeroYet(gs: seq<Group>, a: Group)
    requires RunStart(gs) == |gs|
    ensures Compressed(gs + [a]) ==
      if a == 0 then Compressed(gs) + "::" else if gs == [] then Hex(a) else Compressed(gs) + ":" + Hex(a)
  {
    hide Hex, Join, RunStart, RunEnd;
    RunSnoc(gs, a);
    JoinSnoc(gs, a);
    EmptyJoin();
    assert (gs + [a])[..|gs|] == gs && (gs + [a])[|gs| + 1..] == [];
  }

  lemma {:induction false} AroundSnoc(gs: seq<Group>, a: Group, k: nat, e: nat)
    requires k <= e <= |gs|
    ensures Around(gs + [a], k, e) ==
      if e == |gs| then Around(gs, k, e) + Hex(a) else Around(gs, k, e) + ":" + Hex(a)
    ensures e == |gs| ==> Around(gs + [a], k, e + 1) == Around(gs, k, e)
  {
    hide Hex, Join;
    EmptyJoin();
    JoinSnoc(gs[e..], a);
    assert (gs + [a])[..k] == gs[..k];
    assert (gs + [a])[e..] == gs[e..] + [a];
    assert e == |gs| ==> (gs + [a])[e + 1..] == [] && gs[e..] == [];
  }

  lemma {:induction false} ZeroSeen(gs: seq<Group>, a: Group)
    requires RunStart(gs) < |gs|
    ensures Compressed(gs + [a]) ==
      if RunEnd(gs) < |gs| then Compressed(gs) + ":" + Hex(a)
      else if a == 0 then Compressed(gs) else Compressed(gs) + Hex(a)
  {
    hide Hex, Around, RunStart, RunEnd;
    RunSnoc(gs, a);
    AroundSnoc(gs, a, RunStart(gs), RunEnd(gs));
  }

  lemma {:induction false} CompressedLength(gs: seq<Group>)
    requires |gs| <= 8
    ensures |Compressed(gs)| <= 39
  {
    hide Join, ReadList, SingleColons;
    var k, e := RunStart(gs), RunEnd(gs);
    assert Join([]) == "" by { EmptyJoin(); }
    JoinIsRead(gs);
    JoinIsRead(gs[..k]);
    JoinIsRead(gs[e..]);
    assert k < |gs| ==> e > k by { if k < |gs| { assert gs[k] == 0; } }
  }

  /** The meaning of the printer's variable f after the groups p: 0 before the first zero
      group, the length of the run inside it, -1 once the run is closed. */
  predicate RunFlag(p: seq<Group>, f: int) {
    && f >= -1
    && (f == 0 <==> RunStart(p) == |p|)
    && (f > 0 ==> RunStart(p) + f == |p| && RunEnd(p) == |p|)
    && (f == -1 <==> RunEnd(p) < |p|)
  }

  function NextFlag(a: Group, f: int): int {
    if a == 0 && f >= 0 then f + 1 else if f > 0 then -1 else f
  }

  function NextText(first: bool, a: Group, f: int): string {
    if a == 0 && f >= 0 then if f == 0 then "::" else ""
    else if f > 0 || first then Hex(a)
    else ":" + Hex(a)
  }

  lemma {:induction false} RunFlagStarts()
    ensures RunFlag([], 0) && Compressed([]) == ""
  {
  }

  /** One turn of the printer's loop. */
  lemma {:induction false} PrinterStep(p: seq<Group>, a: Group, f: int)
    requires RunFlag(p, f)
    ensures RunFlag(p + [a], NextFlag(a, f))
    ensures Compressed(p + [a]) == Compressed(p) + NextText(p == [], a, f)
    ensures f != 0 ==> p != []
  {
    hide Hex, Join;
    CompressedSnoc(p, a);
    RunSnoc(p, a);
    var c, h := Compressed(p), Hex(a);
    assert c + "" == c && c + (":" + h) == c + ":" + h;
    if p == [] { RunFlagStarts(); assert c + h == h; }
  }
}
