/** Packets of the SBVK protocol, the text they carry, and the C library
    functions that turn numbers into text and back.

    Strings are unbounded here. That the fixed arrays of `struct Header` (20 characters)
    and `struct Packet` (50 characters) are large enough in every reachable state is a
    theorem about the whole system, `Delivery.PacketsFitTheirArrays`. */
module Packets {

  datatype Option<+T> = None | Some(value: T)

  /** The four-bit `mst` field. */
  type MessageType = t: nat | t < 16

  const HELLO: MessageType := 0
  const PUBLISH: MessageType := 1
  const PUBACK: MessageType := 2
  const SUBSCRIBE: MessageType := 3
  const SUBACK: MessageType := 4
  const DISCONNECT: MessageType := 5
  const CONNECT: MessageType := 6
  const CONNACK: MessageType := 7
  const PINGREQ: MessageType := 10
  const PINGRESP: MessageType := 11
  const PUSH: MessageType := 12
  const PUSHACK: MessageType := 13

  datatype Packet = Packet(mst: MessageType, rel: bool, option: string, payload: string)

  /** The control server has one address; every mote has its own. */
  datatype Addr = Server | Mote(id: nat)

  /** A packet handed to the network for a destination. */
  datatype Send = Send(pkt: Packet, dst: Addr)

  /** A packet in the network, with its (genuine) source address. */
  datatype Msg = Msg(src: Addr, dst: Addr, pkt: Packet)

  function CreatePacket(mst: MessageType, rel: bool, option: string, payload: string): Packet {
    Packet(mst, rel, option, "  " + payload)
  }

  /** The array sizes of structure.h, one character each being the terminator. */
  predicate Fits(p: Packet) {
    |p.option| <= 19 && |p.payload| <= 49
  }

  // The packets with fixed content.

  function HelloInit(): Packet { CreatePacket(HELLO, false, "init", "123456789100000000") }
  function HelloResponse(): Packet { CreatePacket(HELLO, false, "response", "testpayload") }
  function Connect(): Packet { CreatePacket(CONNECT, true, "CONNECT", "testpayload") }
  function ConnAck(): Packet { CreatePacket(CONNACK, false, "CONNACK", "testpayload") }
  function Disconnect(): Packet { CreatePacket(DISCONNECT, false, "DISCONNECT", "testpayload") }
  function Subscribe(topic: string): Packet { CreatePacket(SUBSCRIBE, true, topic, "") }
  function SubAck(): Packet { CreatePacket(SUBACK, false, "", "") }
  function Publish(topic: string, value: string): Packet { CreatePacket(PUBLISH, true, topic, value) }
  function PubAck(): Packet { CreatePacket(PUBACK, false, "", "") }
  function Push(p: Packet): Packet { CreatePacket(PUSH, p.rel, p.option, p.payload) }
  function PushAck(): Packet { CreatePacket(PUSHACK, false, "", "") }
  function PingReq(): Packet { CreatePacket(PINGREQ, false, "PINGREQ", "testPayload") }
  function PingResp(): Packet { CreatePacket(PINGRESP, false, "PINGRESP", "pingRespTestPayload") }
}

/** `sprintf("%d", n)`, `atoi`, and what relaying does to a printed number. */
module Numerals {
  import opened Packets

  predicate IsDigit(c: char) { '0' <= c <= '9' }

  function DigitOf(d: nat): char
    requires d < 10
  {
    '0' + d as char
  }

  function DigitValue(c: char): nat
    requires IsDigit(c)
  {
    (c - '0') as nat
  }

  /** The decimal digits of n, as `%d`, `%u` and `%lu` print them. */
  function Dec(n: nat): string {
    if n < 10 then [DigitOf(n)] else Dec(n / 10) + [DigitOf(n % 10)]
  }

  predicate IsSpace(c: char) {
    c == ' ' || c == '\t' || c == '\n' || c == '\r' || c as int == 11 || c as int == 12
  }

  function SkipSpaces(s: string): string {
    if s != "" && IsSpace(s[0]) then SkipSpaces(s[1..]) else s
  }

  /** Reads digits up to the first character that is not one. */
  function ReadDigits(s: string, acc: nat): nat {
    if s != "" && IsDigit(s[0]) then ReadDigits(s[1..], 10 * acc + DigitValue(s[0])) else acc
  }

  function Atoi(s: string): int {
    var t := SkipSpaces(s);
    if t == "" then 0
    else if t[0] == '-' then 0 - ReadDigits(t[1..], 0)
    else if t[0] == '+' then ReadDigits(t[1..], 0)
    else ReadDigits(t, 0)
  }

  predicate AllDigits(s: string) {
    forall i :: 0 <= i < |s| ==> IsDigit(s[i])
  }

  lemma {:induction false} DecIsDigits(n: nat)
    ensures Dec(n) != "" && AllDigits(Dec(n))
  {
    if n >= 10 { DecIsDigits(n / 10); }
  }

  lemma {:induction false} ReadDigitsSnoc(s: string, d: char, acc: nat)
    requires AllDigits(s) && IsDigit(d)
    ensures ReadDigits(s + [d], acc) == 10 * ReadDigits(s, acc) + DigitValue(d)
  {
    if s == "" {
      assert s + [d] == [d];
    } else {
      assert (s + [d])[1..] == s[1..] + [d];
      ReadDigitsSnoc(s[1..], d, 10 * acc + DigitValue(s[0]));
    }
  }

  lemma {:induction false} ReadDigitsOfDec(n: nat)
    ensures ReadDigits(Dec(n), 0) == n
  {
    if n >= 10 {
      DecIsDigits(n / 10);
      ReadDigitsSnoc(Dec(n / 10), DigitOf(n % 10), 0);
      ReadDigitsOfDec(n / 10);
    }
  }

  /** Printed numbers have no leading zero. */
  lemma {:induction false} DecIsCanonical(n: nat)
    ensures Dec(n) != "" && (Dec(n)[0] == '0' <==> n == 0) && (n < 10 <==> |Dec(n)| == 1)
  {
    if n >= 10 {
      DecIsCanonical(n / 10);
      DecIsDigits(n / 10);
    }
  }

  lemma {:induction false} ReadDigitsStops(s: string, rest: string, acc: nat)
    requires AllDigits(s) && (rest != "" ==> !IsDigit(rest[0]))
    ensures ReadDigits(s + rest, acc) == ReadDigits(s, acc)
  {
    if s == "" {
      assert s + rest == rest;
    } else {
      assert (s + rest)[1..] == s[1..] + rest;
      ReadDigitsStops(s[1..], rest, 10 * acc + DigitValue(s[0]));
    }
  }

  /** White space, by its codes. */
  predicate AllBlank(s: string) {
    forall i :: 0 <= i < |s| ==> 9 <= s[i] as int <= 13 || s[i] as int == 32
  }

  lemma {:induction false} SkipsBlanks(blanks: string, rest: string)
    requires AllBlank(blanks) && (rest != "" ==> !IsSpace(rest[0]))
    ensures SkipSpaces(blanks + rest) == rest
  {
    if blanks == "" {
      assert blanks + rest == rest;
    } else {
      assert (blanks + rest)[1..] == blanks[1..] + rest;
      SkipsBlanks(blanks[1..], rest);
    }
  }

  /** `atoi` reads a number behind white space and a sign, up to what is no digit, and 0 where
      there is no number. */
  lemma {:induction false} AtoiReads(blanks: string, n: nat, rest: string)
    requires AllBlank(blanks) && (rest != "" ==> !IsDigit(rest[0]))
    ensures Atoi(blanks + (Dec(n) + rest)) == n
    ensures Atoi(blanks + ("+" + (Dec(n) + rest))) == n && Atoi(blanks + ("-" + (Dec(n) + rest))) + n == 0
    ensures rest != "" && !IsSpace(rest[0]) && rest[0] !in "+-" ==> Atoi(blanks + rest) == 0
  {
    hide Dec;
    var t := Dec(n) + rest;
    DecIsDigits(n);
    ReadDigitsOfDec(n);
    ReadDigitsStops(Dec(n), rest, 0);
    SkipsBlanks(blanks, t);
    SkipsBlanks(blanks, "+" + t);
    SkipsBlanks(blanks, "-" + t);
    assert ("+" + t)[1..] == t && ("-" + t)[1..] == t;
    if rest != "" && !IsSpace(rest[0]) { SkipsBlanks(blanks, rest); }
  }

  /** A value after k trips through `createPacket`: each one puts two blanks in front. */
  function Relayed(s: string, k: nat): string {
    if k == 0 then s else "  " + Relayed(s, k - 1)
  }

  lemma {:induction false} RelayedLength(s: string, k: nat)
    ensures |Relayed(s, k)| == 2 * k + |s|
  {
    if k > 0 { RelayedLength(s, k - 1); }
  }

  lemma {:induction false} AtoiIgnoresRelays(s: string, k: nat)
    ensures Atoi(Relayed(s, k)) == Atoi(s)
  {
    if k > 0 {
      var r := Relayed(s, k - 1);
      assert ("  " + r)[1..] == " " + r;
      assert (" " + r)[1..] == r;
      assert SkipSpaces("  " + r) == SkipSpaces(" " + r) == SkipSpaces(r);
      AtoiIgnoresRelays(s, k - 1);
    }
  }

  /** The value printed by a sensor and relayed any number of times is the value a
      subscriber's `atoi` reads. It needs no bound on k: the bound on what `payload[50]`
      holds is the iff below. */
  lemma {:induction false} ValueRoundTrip(n: nat, k: nat, option: string)
    ensures Atoi(Relayed(Dec(n), k)) == n
    ensures |option| <= 19 ==>
      (Fits(Packet(PUSH, true, option, Relayed(Dec(n), k))) <==> 2 * k + |Dec(n)| < 50)
  {
    AtoiIgnoresRelays(Dec(n), k);
    DecIsDigits(n);
    ReadDigitsOfDec(n);
    RelayedLength(Dec(n), k);
  }

  /** What the alarm reads from a push of a published value, and from a menu command. */
  lemma {:induction false} PushedValue(value: string, topic: string)
    ensures Atoi(Push(Publish(topic, value)).payload) == Atoi(value)
    ensures Push(Publish(topic, value)).payload == "    " + value
  {
    assert Relayed(value, 0) == value;
    assert Relayed(value, 1) == "  " + value;
    assert Relayed(value, 2) == "  " + ("  " + value);
    AtoiIgnoresRelays(value, 2);
    assert "  " + ("  " + value) == "    " + value;
  }
}
