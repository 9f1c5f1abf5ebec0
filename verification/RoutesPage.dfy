/** The border router's page of neighbours, routes and links: webserver.c, with its static
    buffer of 256 characters, over one uninterrupted connection. */
module RoutesPage {
  import opened Packets
  import opened Numerals
  import opened Ipv6Text

  type Address = a: seq<Byte> | |a| == 16 witness seq(16, _ => 0)

  /** A printed lifetime: `unsigned long` and `unsigned int` have at most 32 bits here. */
  type Seconds = n: nat | n < 0x1_0000_0000

  datatype Route = Route(prefix: Address, length: Byte, nexthop: Address, lifetime: Seconds)

  /** A source-routing link; the root has no parent. */
  datatype Link = Link(child: Address, parent: Option<Address>, lifetime: Seconds)

  // ---------- The page

  function Top(): string { "<html>\n  <head>\n    <title>Contiki-NG</title>\n  </head>\n<body>\n" }

  function Bottom(): string { "\n</body>\n</html>\n" }

  function AddressText(a: Address): string { Compressed(Groups(a)) }

  function NeighborRow(a: Address): string {
    "    <li>" + AddressText(a) + "</li>\n"
  }

  function RouteRow(r: Route): string {
    "    <li>" + AddressText(r.prefix) + ("/" + Dec(r.length) + " (via ") + AddressText(r.nexthop) +
    (") " + Dec(r.lifetime) + "s") + "</li>\n"
  }

  function LinkRow(l: Link): string {
    if l.parent.None? then ""
    else
      "    <li>" + AddressText(l.child) + " (parent: " + AddressText(l.parent.value) +
      (") " + Dec(l.lifetime) + "s") + "</li>\n"
  }

  function NeighborRows(s: seq<Address>): string {
    if s == [] then "" else NeighborRow(s[0]) + NeighborRows(s[1..])
  }

  function RouteRows(s: seq<Route>): string {
    if s == [] then "" else RouteRow(s[0]) + RouteRows(s[1..])
  }

  function LinkRows(s: seq<Link>): string {
    if s == [] then "" else LinkRow(s[0]) + LinkRows(s[1..])
  }

  function NeighborsPart(nbrs: seq<Address>): string {
    "  Neighbors\n  <ul>\n" + NeighborRows(nbrs) + "  </ul>\n"
  }

  function RoutesPart(routes: seq<Route>): string {
    "  Routes\n  <ul>\n" + RouteRows(routes) + "  </ul>\n"
  }

  function LinksPart(links: seq<Link>): string {
    if links == [] then "" else "  Routing links\n  <ul>\n" + LinkRows(links) + "  </ul>"
  }

  /** The page, given whether the router was built with a routing table and with source routing. */
  function Page(nbrs: seq<Address>, routes: seq<Route>, links: seq<Link>, hasRoutes: bool, hasLinks: bool): string {
    Top() + NeighborsPart(nbrs) +
    (if hasRoutes then RoutesPart(routes) else "") +
    (if hasLinks then LinksPart(links) else "") + Bottom()
  }

  // ---------- Lengths

  function Power10(k: nat): nat { if k == 0 then 1 else 10 * Power10(k - 1) }

  lemma {:induction false} DecLength(n: nat, k: nat)
    requires k >= 1 && n < Power10(k)
    ensures |Dec(n)| <= k
    decreases k
  {
    if n >= 10 { DecLength(n / 10, k - 1); }
  }

  lemma {:induction false} ShortNumbers(length: Byte, lifetime: Seconds)
    ensures |Dec(length)| <= 3 && |Dec(lifetime)| <= 10
  {
    assert Power10(3) == 1000;
    assert Power10(5) == 100 * Power10(3);
    assert Power10(7) == 100 * Power10(5);
    assert Power10(9) == 100 * Power10(7);
    assert Power10(10) == 10 * Power10(9) == 10000000000;
    DecLength(length, 3);
    DecLength(lifetime, 10);
  }

  lemma {:induction false} AddressLength(a: Address)
    ensures |AddressText(a)| <= 39
  {
    CompressedLength(Groups(a));
  }

  /** Text without a terminator inside. */
  predicate IsCString(s: string) {
    forall i :: 0 <= i < |s| ==> s[i] != '\0'
  }

  lemma {:induction false} HexIsCString(g: nat)
    ensures IsCString(Hex(g))
  {
    if g >= 16 { HexIsCString(g / 16); }
  }

  lemma {:induction false} DecIsCString(n: nat)
    ensures IsCString(Dec(n))
  {
    DecIsDigits(n);
  }

  /** What `strlen` and `PSOCK_SEND` see of a buffer: everything before the terminator. */
  function UpToTerminator(s: string): string {
    if s == "" || s[0] == '\0' then "" else [s[0]] + UpToTerminator(s[1..])
  }

  lemma {:induction false} TerminatedText(t: string, rest: string)
    requires IsCString(t) && rest != "" && rest[0] == '\0'
    ensures UpToTerminator(t + rest) == t
  {
    if t == "" {
      assert t + rest == rest;
    } else {
      assert (t + rest)[1..] == t[1..] + rest;
      TerminatedText(t[1..], rest);
    }
  }

  // ---------- The program

  class WebServer {
    const buf: array<char>
    var blen: int
    var sent: string

    constructor ()
      ensures fresh(buf) && Holds("") && sent == ""
    {
      buf := new char[256](_ => '\0');
      blen := 0;
      sent := "";
    }

    /** The buffer holds t so far, strictly inside its 256 characters. */
    predicate Holds(t: string)
      reads this, buf
    {
      buf.Length == 256 && blen == |t| < 256 && buf[..blen] == t && IsCString(t)
    }

    predicate Terminated()
      reads this, buf
    {
      0 <= blen < buf.Length && buf[blen] == '\0'
    }

    /** `ADD`: `snprintf` writes at most what is left and always a terminator, but returns
        the length it would have liked to write. */
    method Add(s: string, ghost t: string)
      requires Holds(t) && IsCString(s)
      modifies this`blen, buf
      ensures blen == |t| + |s|
      ensures buf[..|t|] == t
      ensures |t| + |s| < 256 ==> Holds(t + s) && Terminated()
      ensures |t| + |s| >= 256 ==> buf[|t|..255] == s[..255 - |t|] && buf[255] == '\0'
    {
      var room := buf.Length - blen;
      var n := if |s| < room then |s| else room - 1;
      for i := 0 to n
        invariant blen == |t| && buf[..|t|] == t
        invariant buf[|t|..|t| + i] == s[..i]
      {
        buf[blen + i] := s[i];
        assert buf[|t|..|t| + i + 1] == buf[|t|..|t| + i] + [s[i]];
      }
      buf[blen + n] := '\0';
      blen := blen + |s|;
      if |t| + |s| < 256 {
        assert s[..|s|] == s;
        assert buf[..|t| + |s|] == buf[..|t|] + buf[|t|..|t| + |s|];
      }
    }

    /** `SEND`: everything before the terminator goes out, and the buffer is empty again. */
    method Send(ghost t: string)
      requires Holds(t) && Terminated()
      modifies this`blen, this`sent
      ensures sent == old(sent) + t && Holds("")
    {
      assert buf[..] == t + buf[|t|..];
      TerminatedText(t, buf[|t|..]);
      sent := sent + UpToTerminator(buf[..]);
      blen := 0;
    }

    /** One pass over the groups of the address. */
    method IpaddrAdd(addr: Address, ghost t: string)
      requires Holds(t) && |t| + 39 < 256
      modifies this`blen, buf
      ensures Holds(t + AddressText(addr)) && Terminated()
    {
      hide RunFlag, Compressed, Hex, IsCString;
      ghost var gs := Groups(addr);
      var i, f := 0, 0;
      RunFlagStarts();
      assert gs[..0] == [] && t + "" == t;
      while i < 16
        invariant 0 <= i <= 16 && i % 2 == 0
        invariant Holds(t + Compressed(gs[..i / 2])) && (i > 0 ==> Terminated())
        invariant RunFlag(gs[..i / 2], f)
      {
        var a := 256 * (addr[i] as int) + addr[i + 1] as int;
        ghost var p := gs[..i / 2];
        ghost var shown := t + Compressed(p);
        assert a == gs[i / 2] && gs[..i / 2 + 1] == p + [a];
        PrinterStep(p, a, f);
        CompressedLength(p + [a]);
        PiecesAreCStrings(a);
        assert t + Compressed(p + [a]) == shown + NextText(p == [], a, f);
        assert shown + "" == shown && shown + (":" + Hex(a)) == shown + ":" + Hex(a);
        if a == 0 && f >= 0 {
          if f == 0 {
            Add("::", shown);
          }
          f := f + 1;
        } else {
          if f > 0 {
            f := -1;
          } else if i > 0 {
            Add(":", shown);
            shown := shown + ":";
          }
          Add(Hex(a), shown);
        }
        i := i + 2;
      }
      assert gs[..8] == gs;
    }

    /** `ADD` followed by `SEND`. */
    method SendLine(s: string)
      requires Holds("") && IsCString(s) && |s| < 256
      modifies this`blen, this`sent, buf
      ensures Holds("") && sent == old(sent) + s
    {
      assert "" + s == s;
      Add(s, "");
      Send(s);
    }

    /** `SEND_STRING` of a constant, past the buffer. */
    method SendString(s: string)
      requires Holds("")
      modifies this`sent
      ensures Holds("") && sent == old(sent) + s
    {
      sent := sent + s;
    }

    /** The beginning of every row. */
    method OpenRow(a: Address)
      requires Holds("")
      modifies this`blen, buf
      ensures Holds("    <li>" + AddressText(a))
    {
      hide IsCString, AddressText;
      FixedText();
      assert "" + "    <li>" == "    <li>";
      Add("    <li>", "");
      IpaddrAdd(a, "    <li>");
    }

    /** The end of the rows that show a lifetime. */
    method CloseRow(lifetime: Seconds, ghost t: string)
      requires Holds(t) && |t| <= 200
      modifies this`blen, this`sent, buf
      ensures Holds("") && sent == old(sent) + (t + (") " + Dec(lifetime) + "s") + "</li>\n")
    {
      hide IsCString, Dec;
      ShortNumbers(0, lifetime);
      FixedText();
      NumberText(") ", lifetime, "s");
      Add(") " + Dec(lifetime) + "s", t);
      Add("</li>\n", t + (") " + Dec(lifetime) + "s"));
      Send(t + (") " + Dec(lifetime) + "s") + "</li>\n");
    }

    method SendNeighbor(a: Address)
      requires Holds("")
      modifies this`blen, this`sent, buf
      ensures Holds("") && sent == old(sent) + NeighborRow(a)
    {
      hide IsCString, AddressText;
      AddressLength(a);
      FixedText();
      OpenRow(a);
      Add("</li>\n", "    <li>" + AddressText(a));
      Send(NeighborRow(a));
    }

    method SendRoute(r: Route)
      requires Holds("")
      modifies this`blen, this`sent, buf
      ensures Holds("") && sent == old(sent) + RouteRow(r)
    {
      hide IsCString, AddressText, Dec;
      AddressLength(r.prefix);
      AddressLength(r.nexthop);
      ShortNumbers(r.length, r.lifetime);
      NumberText("/", r.length, " (via ");
      ghost var t := "    <li>" + AddressText(r.prefix);
      OpenRow(r.prefix);
      Add("/" + Dec(r.length) + " (via ", t);
      t := t + ("/" + Dec(r.length) + " (via ");
      IpaddrAdd(r.nexthop, t);
      CloseRow(r.lifetime, t + AddressText(r.nexthop));
    }

    method SendLink(l: Link)
      requires Holds("")
      modifies this`blen, this`sent, buf
      ensures Holds("") && sent == old(sent) + LinkRow(l)
    {
      hide IsCString, AddressText, Dec;
      if l.parent.Some? {
        AddressLength(l.child);
        AddressLength(l.parent.value);
        FixedText();
        ghost var t := "    <li>" + AddressText(l.child);
        OpenRow(l.child);
        Add(" (parent: ", t);
        t := t + " (parent: ";
        IpaddrAdd(l.parent.value, t);
        CloseRow(l.lifetime, t + AddressText(l.parent.value));
      }
    }

    method SendNeighbors(nbrs: seq<Address>)
      requires Holds("")
      modifies this`blen, this`sent, buf
      ensures Holds("") && sent == old(sent) + NeighborRows(nbrs)
    {
      hide NeighborRow, IsCString;
      assert nbrs[0..] == nbrs;
      for i := 0 to |nbrs|
        invariant Holds("")
        invariant sent + NeighborRows(nbrs[i..]) == old(sent) + NeighborRows(nbrs)
      {
        ghost var before := sent;
        SendNeighbor(nbrs[i]);
        assert nbrs[i..][1..] == nbrs[i + 1..];
        assert before + (NeighborRow(nbrs[i]) + NeighborRows(nbrs[i + 1..])) == sent + NeighborRows(nbrs[i + 1..]);
      }
      assert sent + "" == sent;
    }

    method SendRoutes(routes: seq<Route>)
      requires Holds("")
      modifies this`blen, this`sent, buf
      ensures Holds("") && sent == old(sent) + RouteRows(routes)
    {
      hide RouteRow, IsCString;
      assert routes[0..] == routes;
      for i := 0 to |routes|
        invariant Holds("")
        invariant sent + RouteRows(routes[i..]) == old(sent) + RouteRows(routes)
      {
        ghost var before := sent;
        SendRoute(routes[i]);
        assert routes[i..][1..] == routes[i + 1..];
        assert before + (RouteRow(routes[i]) + RouteRows(routes[i + 1..])) == sent + RouteRows(routes[i + 1..]);
      }
      assert sent + "" == sent;
    }

    method SendLinks(links: seq<Link>)
      requires Holds("")
      modifies this`blen, this`sent, buf
      ensures Holds("") && sent == old(sent) + LinkRows(links)
    {
      hide LinkRow, IsCString;
      assert links[0..] == links;
      for i := 0 to |links|
        invariant Holds("")
        invariant sent + LinkRows(links[i..]) == old(sent) + LinkRows(links)
      {
        ghost var before := sent;
        SendLink(links[i]);
        assert links[i..][1..] == links[i + 1..];
        assert before + (LinkRow(links[i]) + LinkRows(links[i + 1..])) == sent + LinkRows(links[i + 1..]);
      }
      assert sent + "" == sent;
    }

    method SendNeighborsPart(nbrs: seq<Address>)
      requires Holds("")
      modifies this`blen, this`sent, buf
      ensures Holds("") && sent == old(sent) + NeighborsPart(nbrs)
    {
      hide NeighborRows, IsCString;
      FixedText();
      SendLine("  Neighbors\n  <ul>\n");
      SendNeighbors(nbrs);
      SendLine("  </ul>\n");
    }

    method SendRoutesPart(routes: seq<Route>)
      requires Holds("")
      modifies this`blen, this`sent, buf
      ensures Holds("") && sent == old(sent) + RoutesPart(routes)
    {
      hide RouteRows, IsCString;
      FixedText();
      SendLine("  Routes\n  <ul>\n");
      SendRoutes(routes);
      SendLine("  </ul>\n");
    }

    method SendLinksPart(links: seq<Link>)
      requires Holds("")
      modifies this`blen, this`sent, buf
      ensures Holds("") && sent == old(sent) + LinksPart(links)
    {
      hide LinkRows, IsCString;
      FixedText();
      assert sent + "" == sent;
      if |links| > 0 {
        SendLine("  Routing links\n  <ul>\n");
        SendLinks(links);
        SendLine("  </ul>");
      }
    }

    /** One uninterrupted run from an empty buffer sends exactly the page; on the way every
        `ADD` finds room, as the precondition of the next one demands. */
    method GenerateRoutes(nbrs: seq<Address>, routes: seq<Route>, links: seq<Link>, hasRoutes: bool, hasLinks: bool)
      requires Holds("")
      modifies this`blen, this`sent, buf
      ensures Holds("") && sent == old(sent) + Page(nbrs, routes, links, hasRoutes, hasLinks)
    {
      hide NeighborsPart, RoutesPart, LinksPart, Holds, Top, Bottom;
      SendString(Top());
      SendNeighborsPart(nbrs);
      ghost var before := sent;
      if hasRoutes {
        SendRoutesPart(routes);
      }
      assert sent == before + if hasRoutes then RoutesPart(routes) else "";
      before := sent;
      if hasLinks {
        SendLinksPart(links);
      }
      assert sent == before + if hasLinks then LinksPart(links) else "";
      SendString(Bottom());
    }

    lemma {:induction false} FixedText()
      ensures IsCString("    <li>") && IsCString("</li>\n") && IsCString(" (parent: ")
      ensures IsCString("  Neighbors\n  <ul>\n") && IsCString("  </ul>\n") && IsCString("  Routes\n  <ul>\n")
      ensures IsCString("  Routing links\n  <ul>\n") && IsCString("  </ul>")
    {
    }

    lemma {:induction false} NumberText(a: string, n: nat, b: string)
      requires IsCString(a) && IsCString(b)
      ensures IsCString(a + Dec(n) + b)
    {
      DecIsCString(n);
    }

    lemma {:induction false} PiecesAreCStrings(a: Group)
      ensures IsCString("::") && IsCString(":") && IsCString(Hex(a))
    {
      HexIsCString(a);
    }
  }
}
