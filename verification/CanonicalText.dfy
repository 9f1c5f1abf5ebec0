/** The text of a compressed address is fixed: of all the ways section 2.2 of RFC 4291 leaves
    open, the printer takes the one described here, and no other text is like it. */
module CanonicalText {
  import opened Packets
  import opened Ipv6Text

  /** A group that starts here with a zero and goes on. */
  predicate LeadingZero(s: string, i: nat) {
    i + 1 < |s| && s[i] == '0' && (i == 0 || s[i - 1] == ':') && s[i + 1] != ':'
  }

  ghost predicate NoLeadingZeros(s: string) {
    forall i: nat :: !LeadingZero(s, i)
  }

  /** Lower-case letters, no leading zeros, a "::" if and only if some group is zero, and it
      stands for the whole of the first run of zero groups, however short. */
  ghost predicate Canonical(s: string) {
    var d := DoubleColon(s);
    && AddressChars(s) && NoLeadingZeros(s)
    && if d == |s| then ReadList(s).Some? && 0 !in ReadList(s).value
       else
         var left, right := ReadList(s[..d]), ReadList(s[d + 2..]);
         && left.Some? && 0 !in left.value
         && right.Some? && (right.value != [] ==> right.value[0] != 0)
  }

  // ---------- What is printed is canonical

  lemma {:induction false} NoZerosAround(a: string, b: string)
    requires NoLeadingZeros(a) && NoLeadingZeros(b)
    ensures NoLeadingZeros(a + ":" + b)
  {
    var s := a + ":" + b;
    forall i: nat ensures !LeadingZero(s, i) {
      if i < |a| {
        assert !LeadingZero(a, i);
      } else if i > |a| {
        var j := i - |a| - 1;
        assert !LeadingZero(b, j);
        assert i < |s| ==> s[i] == b[j];
        assert i + 1 < |s| ==> s[i + 1] == b[j + 1];
        assert 0 < j < |b| ==> s[i - 1] == b[j - 1];
      }
    }
  }

  lemma {:induction false} HexNoZeros(g: Group)
    ensures NoLeadingZeros(Hex(g))
  {
    hide Hex, ReadHex;
    HexIsGroup(g);
    forall i: nat ensures !LeadingZero(Hex(g), i) {
      assert 0 < i < |Hex(g)| ==> Hex(g)[i - 1] != ':';
    }
  }

  lemma {:induction false} JoinNoZeros(gs: seq<Group>)
    ensures NoLeadingZeros(Join(gs))
  {
    hide Hex, NoLeadingZeros;
    assert NoLeadingZeros("") by { NothingLeading(); }
    if gs != [] {
      HexNoZeros(gs[0]);
      if |gs| > 1 {
        JoinNoZeros(gs[1..]);
        NoZerosAround(Hex(gs[0]), Join(gs[1..]));
      }
    }
  }

  lemma {:induction false} NothingLeading()
    ensures NoLeadingZeros("")
  {
  }

  lemma {:induction false} AroundNoZeros(a: string, b: string)
    requires NoLeadingZeros(a) && NoLeadingZeros(b)
    ensures NoLeadingZeros(a + "::" + b)
  {
    NothingLeading();
    NoZerosAround("", b);
    NoZerosAround(a, "" + ":" + b);
    assert a + ":" + ("" + ":" + b) == a + "::" + b;
  }

  lemma {:induction false} CompressedIsCanonical(gs: seq<Group>)
    requires |gs| == 8
    ensures Canonical(Compressed(gs))
  {
    hide Join, ReadList, SingleColons, NoLeadingZeros, AddressChars;
    var k, e := RunStart(gs), RunEnd(gs);
    CompressedChars(gs);
    if k == |gs| {
      JoinIsRead(gs);
      JoinNoZeros(gs);
      NoDouble(Join(gs));
    } else {
      JoinIsRead(gs[..k]);
      JoinIsRead(gs[e..]);
      JoinNoZeros(gs[..k]);
      JoinNoZeros(gs[e..]);
      AroundNoZeros(Join(gs[..k]), Join(gs[e..]));
      OneDouble(Join(gs[..k]), Join(gs[e..]));
    }
  }

  // ---------- What is canonical is printed

  lemma {:induction false} OnlyHex(s: string)
    requires s != "" && AddressChars(s) && ReadHex(s).Some? && (|s| > 1 ==> s[0] != '0')
    ensures s == Hex(ReadHex(s).value)
  {
    var init, c := s[..|s| - 1], s[|s| - 1];
    assert s == init + [c];
    assert HexDigit(HexValue(c).value) == c;
    if init != "" {
      OnlyHex(init);
      assert ReadHex(init).value == 0 ==> init == "0";
    }
  }

  lemma {:induction false} OnlyJoin(s: string, gs: seq<nat>)
    requires AddressChars(s) && NoLeadingZeros(s) && ReadPieces(Pieces(s)) == Some(gs)
    ensures gs != [] && (forall i :: 0 <= i < |gs| ==> gs[i] < 0x1_0000) && s == Join(gs)
    decreases |s|
  {
    hide Hex, ReadHex, NoLeadingZeros;
    var k := Colon(s);
    var h := s[..k];
    assert AddressChars(h) && IsText(h);
    assert NoLeadingZeros(h) by { FirstNoZeros(s, k); }
    if k == |s| {
      assert s == h && Pieces(s)[1..] == [];
      OnlyGroup(s);
      assert gs == [ReadHex(s).value];
    } else {
      var rest := s[k + 1..];
      assert s == h + ":" + rest && Pieces(s)[1..] == Pieces(rest);
      assert NoLeadingZeros(rest) by { RestNoZeros(s, k); }
      OnlyGroup(h);
      OnlyJoin(rest, gs[1..]);
      assert gs == [ReadHex(h).value] + gs[1..];
    }
  }

  lemma {:induction false} FirstNoZeros(s: string, k: nat)
    requires k <= |s| && NoLeadingZeros(s)
    ensures NoLeadingZeros(s[..k])
  {
    forall i: nat ensures !LeadingZero(s[..k], i) {
      assert !LeadingZero(s, i);
    }
  }

  lemma {:induction false} RestNoZeros(s: string, k: nat)
    requires k < |s| && s[k] == ':' && NoLeadingZeros(s)
    ensures NoLeadingZeros(s[k + 1..])
  {
    var rest := s[k + 1..];
    forall i: nat ensures !LeadingZero(rest, i) {
      assert !LeadingZero(s, k + 1 + i);
    }
  }

  lemma {:induction false} OnlyGroup(h: string)
    requires AddressChars(h) && NoLeadingZeros(h) && IsText(h) && ReadGroup(h).Some?
    ensures ReadHex(h).Some? && ReadHex(h).value < 0x1_0000 && h == Hex(ReadHex(h).value)
  {
    hide Hex;
    assert !LeadingZero(h, 0);
    OnlyHex(h);
    HexBound(h);
  }

  lemma {:induction false} HexBound(h: string)
    requires |h| <= 4 && ReadHex(h).Some?
    ensures ReadHex(h).value < if |h| == 0 then 1 else if |h| == 1 then 16 else if |h| == 2 then 256
                               else if |h| == 3 then 4096 else 65536
  {
    if h != "" { HexBound(h[..|h| - 1]); }
  }

  lemma {:induction false} OnlyList(s: string)
    requires AddressChars(s) && NoLeadingZeros(s) && ReadList(s).Some?
    ensures forall i :: 0 <= i < |ReadList(s).value| ==> ReadList(s).value[i] < 0x1_0000
    ensures s == Join(ReadList(s).value)
  {
    hide Hex;
    if s != "" { OnlyJoin(s, ReadList(s).value); }
  }

  lemma {:induction false} RunOf(left: seq<Group>, n: nat, right: seq<Group>)
    requires 0 !in left && n > 0 && (right != [] ==> right[0] != 0)
    ensures var gs: seq<Group> := left + Zeros(n) + right; RunStart(gs) == |left| && RunEnd(gs) == |left| + n
  {
    var gs: seq<Group> := left + Zeros(n) + right;
    assert gs[|left|] == 0;
    assert forall i :: 0 <= i < |left| ==> gs[i] == left[i] && left[i] in left;
    assert forall i :: |left| <= i < |left| + n ==> gs[i] == 0;
    assert right != [] ==> gs[|left| + n] == right[0];
  }

  /** A text is what the printer prints for an address if and only if it is canonical and
      reads as that address. */
  lemma {:induction false} CompressedExactly(s: string, gs: seq<Group>)
    requires |gs| == 8
    ensures s == Compressed(gs) <==> Canonical(s) && Read(s) == Some(gs)
  {
    hide Join, ReadList, NoLeadingZeros, AddressChars;
    if s == Compressed(gs) {
      CompressedIsCanonical(gs);
      CompressedRoundTrip(gs);
    } else if Canonical(s) && Read(s) == Some(gs) {
      OnlyCompressed(s, gs);
      assert false;
    }
  }

  lemma {:induction false} OnlyCompressed(s: string, gs: seq<Group>)
    requires |gs| == 8 && Canonical(s) && Read(s) == Some(gs)
    ensures s == Compressed(gs)
  {
    hide Join, ReadList, RunStart, ZerosEnd, NoLeadingZeros;
    var d := DoubleColon(s);
    if d == |s| {
      OnlyList(s);
      assert gs[..] == gs;
      NoRun(gs);
    } else {
      var a, b := s[..d], s[d + 2..];
      assert s == a + "::" + b;
      assert AddressChars(a) && AddressChars(b);
      assert NoLeadingZeros(a) by { FirstNoZeros(s, d); }
      assert NoLeadingZeros(b) by { RestNoZeros(s, d + 1); }
      OnlyList(a);
      OnlyList(b);
      var left: seq<Group>, right: seq<Group> := ReadList(a).value, ReadList(b).value;
      RunOf(left, 8 - |left| - |right|, right);
      assert gs == left + Zeros(8 - |left| - |right|) + right;
      assert gs[..|left|] == left && gs[8 - |right|..] == right;
    }
  }

  lemma {:induction false} NoRun(gs: seq<Group>)
    requires 0 !in gs
    ensures RunStart(gs) == |gs|
  {
  }
}
