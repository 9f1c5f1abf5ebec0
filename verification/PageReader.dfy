/** What the border router's page says: a reader of the page, independent of how it is
    printed, and the proof that it gives back the neighbours, routes and links. */
module PageReader {
  import opened Packets
  import opened Numerals
  import opened Ipv6Text
  import opened RoutesPage

  /** An item read from the front of a text, and what is left of it. */
  datatype Parsed<T> = Got(value: T, rest: string) | Nothing

  /** A route and a link as a reader sees them, addresses as eight groups. */
  datatype RouteShown = RouteShown(prefix: seq<nat>, length: nat, nexthop: seq<nat>, lifetime: nat)

  datatype LinkShown = LinkShown(child: seq<nat>, parent: seq<nat>, lifetime: nat)

  datatype PageShown = PageShown(
    neighbors: seq<seq<nat>>, routes: Option<seq<RouteShown>>, links: Option<seq<LinkShown>>)

  // ---------- Reading

  function Expect(text: string, s: string): (r: Option<string>)
    ensures r.Some? ==> |r.value| == |s| - |text|
  {
    if text <= s then Some(s[|text|..]) else None
  }

  /** How many characters at the front belong to an address, or to a number. */
  function AddressSpan(s: string): (k: nat)
    ensures k <= |s|
  {
    if s == "" || !IsAddressChar(s[0]) then 0 else 1 + AddressSpan(s[1..])
  }

  function NumberSpan(s: string): (k: nat)
    ensures k <= |s|
  {
    if s == "" || !IsDigit(s[0]) then 0 else 1 + NumberSpan(s[1..])
  }

  /** An address by section 2.2 of RFC 4291. */
  function TakeAddress(s: string): (r: Parsed<seq<nat>>)
    ensures r.Got? ==> |r.rest| <= |s|
  {
    var k := AddressSpan(s);
    match Read(s[..k])
    case None => Nothing
    case Some(gs) => Got(gs, s[k..])
  }

  function TakeNumber(s: string): (r: Parsed<nat>)
    ensures r.Got? ==> |r.rest| <= |s|
  {
    var k := NumberSpan(s);
    if k == 0 then Nothing else Got(ReadDigits(s[..k], 0), s[k..])
  }

  /** `address</li>` */
  function ReadNeighbor(s: string): (r: Parsed<seq<nat>>)
    ensures r.Got? ==> |r.rest| < |s|
  {
    match Expect("    <li>", s)
    case None => Nothing
    case Some(s1) =>
      match TakeAddress(s1)
      case Nothing => Nothing
      case Got(a, s2) =>
        match Expect("</li>\n", s2)
        case None => Nothing
        case Some(s3) => Got(a, s3)
  }

  /** `number s`, the end of a row with a lifetime. */
  function ReadLifetime(s: string): (r: Parsed<nat>)
    ensures r.Got? ==> |r.rest| < |s|
  {
    match Expect(") ", s)
    case None => Nothing
    case Some(s1) =>
      match TakeNumber(s1)
      case Nothing => Nothing
      case Got(n, s2) =>
        match Expect("s</li>\n", s2)
        case None => Nothing
        case Some(s3) => Got(n, s3)
  }

  /** `prefix/length (via next hop) lifetime` */
  function ReadRoute(s: string): (r: Parsed<RouteShown>)
    ensures r.Got? ==> |r.rest| < |s|
  {
    match Expect("    <li>", s)
    case None => Nothing
    case Some(s1) =>
      match TakeAddress(s1)
      case Nothing => Nothing
      case Got(prefix, s2) =>
        match Expect("/", s2)
        case None => Nothing
        case Some(s3) =>
          match TakeNumber(s3)
          case Nothing => Nothing
          case Got(length, s4) =>
            match Expect(" (via ", s4)
            case None => Nothing
            case Some(s5) =>
              match TakeAddress(s5)
              case Nothing => Nothing
              case Got(nexthop, s6) =>
                match ReadLifetime(s6)
                case Nothing => Nothing
                case Got(lifetime, s7) => Got(RouteShown(prefix, length, nexthop, lifetime), s7)
  }

  /** `child (parent: parent) lifetime` */
  function ReadLink(s: string): (r: Parsed<LinkShown>)
    ensures r.Got? ==> |r.rest| < |s|
  {
    match Expect("    <li>", s)
    case None => Nothing
    case Some(s1) =>
      match TakeAddress(s1)
      case Nothing => Nothing
      case Got(child, s2) =>
        match Expect(" (parent: ", s2)
        case None => Nothing
        case Some(s3) =>
          match TakeAddress(s3)
          case Nothing => Nothing
          case Got(parent, s4) =>
            match ReadLifetime(s4)
            case Nothing => Nothing
            case Got(lifetime, s5) => Got(LinkShown(child, parent, lifetime), s5)
  }

  /** As many rows as there are. */
  function ReadNeighbors(s: string): Parsed<seq<seq<nat>>>
    decreases |s|
  {
    match ReadNeighbor(s)
    case Nothing => Got([], s)
    case Got(row, rest) =>
      match ReadNeighbors(rest)
      case Nothing => Nothing
      case Got(rows, end) => Got([row] + rows, end)
  }

  function ReadRoutes(s: string): Parsed<seq<RouteShown>>
    decreases |s|
  {
    match ReadRoute(s)
    case Nothing => Got([], s)
    case Got(row, rest) =>
      match ReadRoutes(rest)
      case Nothing => Nothing
      case Got(rows, end) => Got([row] + rows, end)
  }

  function ReadLinks(s: string): Parsed<seq<LinkShown>>
    decreases |s|
  {
    match ReadLink(s)
    case Nothing => Got([], s)
    case Got(row, rest) =>
      match ReadLinks(rest)
      case Nothing => Nothing
      case Got(rows, end) => Got([row] + rows, end)
  }

  /** The list of neighbours with its heading. */
  function ReadNeighborsPart(s: string): Parsed<seq<seq<nat>>> {
    match Expect("  Neighbors\n  <ul>\n", s)
    case None => Nothing
    case Some(s1) =>
      match ReadNeighbors(s1)
      case Nothing => Nothing
      case Got(rows, s2) =>
        match Expect("  </ul>\n", s2)
        case None => Nothing
        case Some(s3) => Got(rows, s3)
  }

  /** The list of routes, if its heading is there. */
  function ReadRoutesPart(s: string): Parsed<Option<seq<RouteShown>>> {
    match Expect("  Routes\n  <ul>\n", s)
    case None => Got(None, s)
    case Some(s1) =>
      match ReadRoutes(s1)
      case Nothing => Nothing
      case Got(rows, s2) =>
        match Expect("  </ul>\n", s2)
        case None => Nothing
        case Some(s3) => Got(Some(rows), s3)
  }

  /** The list of links, if its heading is there. */
  function ReadLinksPart(s: string): Parsed<Option<seq<LinkShown>>> {
    match Expect("  Routing links\n  <ul>\n", s)
    case None => Got(None, s)
    case Some(s1) =>
      match ReadLinks(s1)
      case Nothing => Nothing
      case Got(rows, s2) =>
        match Expect("  </ul>", s2)
        case None => Nothing
        case Some(s3) => Got(Some(rows), s3)
  }

  function ReadPage(s: string): Option<PageShown> {
    match Expect("<html>\n  <head>\n    <title>Contiki-NG</title>\n  </head>\n<body>\n", s)
    case None => None
    case Some(s1) =>
      match ReadNeighborsPart(s1)
      case Nothing => None
      case Got(neighbors, s2) =>
        match ReadRoutesPart(s2)
        case Nothing => None
        case Got(routes, s3) =>
          match ReadLinksPart(s3)
          case Nothing => None
          case Got(links, s4) =>
            if s4 == "\n</body>\n</html>\n" then Some(PageShown(neighbors, routes, links)) else None
  }

  // ---------- Pieces

  lemma {:induction false} ExpectOf(text: string, rest: string)
    ensures Expect(text, text + rest) == Some(rest)
  {
  }

  lemma {:induction false} AddressSpanOf(t: string, rest: string)
    requires AddressChars(t) && (rest != "" ==> !IsAddressChar(rest[0]))
    ensures AddressSpan(t + rest) == |t|
  {
    if t == "" {
      assert t + rest == rest;
    } else {
      assert (t + rest)[1..] == t[1..] + rest;
      AddressSpanOf(t[1..], rest);
    }
  }

  lemma {:induction false} NumberSpanOf(t: string, rest: string)
    requires AllDigits(t) && (rest != "" ==> !IsDigit(rest[0]))
    ensures NumberSpan(t + rest) == |t|
  {
    if t == "" {
      assert t + rest == rest;
    } else {
      assert (t + rest)[1..] == t[1..] + rest;
      NumberSpanOf(t[1..], rest);
    }
  }

  lemma {:induction false} AddressIsTaken(a: Address, rest: string)
    requires rest != "" ==> !IsAddressChar(rest[0])
    ensures TakeAddress(AddressText(a) + rest) == Got(Groups(a), rest)
  {
    hide Compressed, Read, Groups;
    var t := AddressText(a);
    CompressedChars(Groups(a));
    CompressedRoundTrip(Groups(a));
    AddressSpanOf(t, rest);
    assert (t + rest)[..|t|] == t && (t + rest)[|t|..] == rest;
  }

  lemma {:induction false} NumberIsTaken(n: nat, rest: string)
    requires rest != "" ==> !IsDigit(rest[0])
    ensures TakeNumber(Dec(n) + rest) == Got(n, rest)
  {
    hide Dec;
    var t := Dec(n);
    DecIsDigits(n);
    ReadDigitsOfDec(n);
    NumberSpanOf(t, rest);
    assert (t + rest)[..|t|] == t && (t + rest)[|t|..] == rest;
  }

  // ---------- Rows

  lemma {:induction false} NeighborIsRead(a: Address, rest: string)
    ensures ReadNeighbor(NeighborRow(a) + rest) == Got(Groups(a), rest)
  {
    hide AddressText, TakeAddress, Expect, Groups;
    var t := AddressText(a);
    assert NeighborRow(a) + rest == "    <li>" + (t + ("</li>\n" + rest));
    ExpectOf("    <li>", t + ("</li>\n" + rest));
    AddressIsTaken(a, "</li>\n" + rest);
    ExpectOf("</li>\n", rest);
  }

  lemma {:induction false} LifetimeIsRead(n: nat, rest: string)
    ensures ReadLifetime(") " + (Dec(n) + ("s</li>\n" + rest))) == Got(n, rest)
  {
    hide Dec, TakeNumber, Expect;
    ExpectOf(") ", Dec(n) + ("s</li>\n" + rest));
    NumberIsTaken(n, "s</li>\n" + rest);
    ExpectOf("s</li>\n", rest);
  }

  function RouteOf(r: Route): RouteShown {
    RouteShown(Groups(r.prefix), r.length, Groups(r.nexthop), r.lifetime)
  }

  lemma {:induction false} RouteGrouped(prefix: string, length: string, nexthop: string, lifetime: string, rest: string)
    ensures "    <li>" + prefix + ("/" + length + " (via ") + nexthop + (") " + lifetime + "s") + "</li>\n" + rest ==
      "    <li>" + (prefix + ("/" + (length + (" (via " + (nexthop + (") " + (lifetime + ("s</li>\n" + rest))))))))
  {
    assert "s" + "</li>\n" == "s</li>\n";
  }

  lemma {:induction false} RouteIsRead(r: Route, rest: string)
    ensures ReadRoute(RouteRow(r) + rest) == Got(RouteOf(r), rest)
  {
    hide AddressText, TakeAddress, TakeNumber, Expect, Groups, Dec, ReadLifetime;
    var end := ") " + (Dec(r.lifetime) + ("s</li>\n" + rest));
    var hop := AddressText(r.nexthop) + end;
    var length := Dec(r.length) + (" (via " + hop);
    RouteGrouped(AddressText(r.prefix), Dec(r.length), AddressText(r.nexthop), Dec(r.lifetime), rest);
    ExpectOf("    <li>", AddressText(r.prefix) + ("/" + length));
    AddressIsTaken(r.prefix, "/" + length);
    ExpectOf("/", length);
    NumberIsTaken(r.length, " (via " + hop);
    ExpectOf(" (via ", hop);
    AddressIsTaken(r.nexthop, end);
    LifetimeIsRead(r.lifetime, rest);
  }

  function LinkOf(l: Link): LinkShown
    requires l.parent.Some?
  {
    LinkShown(Groups(l.child), Groups(l.parent.value), l.lifetime)
  }

  lemma {:induction false} LinkGrouped(child: string, parent: string, lifetime: string, rest: string)
    ensures "    <li>" + child + " (parent: " + parent + (") " + lifetime + "s") + "</li>\n" + rest ==
      "    <li>" + (child + (" (parent: " + (parent + (") " + (lifetime + ("s</li>\n" + rest))))))
  {
    assert "s" + "</li>\n" == "s</li>\n";
  }

  lemma {:induction false} LinkIsRead(l: Link, rest: string)
    requires l.parent.Some?
    ensures ReadLink(LinkRow(l) + rest) == Got(LinkOf(l), rest)
  {
    hide AddressText, TakeAddress, Expect, Groups, Dec, ReadLifetime;
    var end := ") " + (Dec(l.lifetime) + ("s</li>\n" + rest));
    var parent := AddressText(l.parent.value) + end;
    LinkGrouped(AddressText(l.child), AddressText(l.parent.value), Dec(l.lifetime), rest);
    ExpectOf("    <li>", AddressText(l.child) + (" (parent: " + parent));
    AddressIsTaken(l.child, " (parent: " + parent);
    ExpectOf(" (parent: ", parent);
    AddressIsTaken(l.parent.value, end);
    LifetimeIsRead(l.lifetime, rest);
  }

  // ---------- Lists

  /** What follows a list: its end, not another row. */
  predicate EndsList(rest: string) {
    "  </ul>" <= rest
  }

  lemma {:induction false} NoRow(rest: string)
    requires EndsList(rest)
    ensures Expect("    <li>", rest) == None
  {
    assert rest[2] == "  </ul>"[2];
    assert rest[2] != "    <li>"[2];
  }

  function ShownNeighbors(s: seq<Address>): seq<seq<nat>> {
    if s == [] then [] else [Groups(s[0])] + ShownNeighbors(s[1..])
  }

  function ShownRoutes(s: seq<Route>): seq<RouteShown> {
    if s == [] then [] else [RouteOf(s[0])] + ShownRoutes(s[1..])
  }

  /** The root, which has no parent, has no row. */
  function ShownLinks(s: seq<Link>): seq<LinkShown> {
    if s == [] then []
    else (if s[0].parent.Some? then [LinkOf(s[0])] else []) + ShownLinks(s[1..])
  }

  lemma {:induction false} NeighborsAreRead(s: seq<Address>, rest: string)
    requires EndsList(rest)
    ensures ReadNeighbors(NeighborRows(s) + rest) == Got(ShownNeighbors(s), rest)
  {
    hide NeighborRow, ReadNeighbor, Groups;
    if s == [] {
      assert "" + rest == rest;
      assert ReadNeighbor(rest) == Nothing by { NoNeighbor(rest); }
    } else {
      var tail := NeighborRows(s[1..]) + rest;
      assert NeighborRows(s) + rest == NeighborRow(s[0]) + tail;
      NeighborIsRead(s[0], tail);
      NeighborsAreRead(s[1..], rest);
    }
  }

  lemma {:induction false} NoNeighbor(rest: string)
    requires EndsList(rest)
    ensures ReadNeighbor(rest) == Nothing && ReadRoute(rest) == Nothing && ReadLink(rest) == Nothing
  {
    hide TakeAddress, TakeNumber, ReadLifetime, Expect;
    NoRow(rest);
  }

  lemma {:induction false} RoutesAreRead(s: seq<Route>, rest: string)
    requires EndsList(rest)
    ensures ReadRoutes(RouteRows(s) + rest) == Got(ShownRoutes(s), rest)
  {
    hide RouteRow, ReadRoute, RouteOf;
    if s == [] {
      assert "" + rest == rest;
      assert ReadRoute(rest) == Nothing by { NoNeighbor(rest); }
    } else {
      var tail := RouteRows(s[1..]) + rest;
      assert RouteRows(s) + rest == RouteRow(s[0]) + tail;
      RouteIsRead(s[0], tail);
      RoutesAreRead(s[1..], rest);
    }
  }

  lemma {:induction false} LinksAreRead(s: seq<Link>, rest: string)
    requires EndsList(rest)
    ensures ReadLinks(LinkRows(s) + rest) == Got(ShownLinks(s), rest)
  {
    hide ReadLink, LinkOf;
    if s == [] {
      assert "" + rest == rest;
      assert ReadLink(rest) == Nothing by { NoNeighbor(rest); }
    } else {
      var tail := LinkRows(s[1..]) + rest;
      LinksAreRead(s[1..], rest);
      FirstLink(s[0], LinkRows(s[1..]), rest);
      assert LinkRows(s) + rest == LinkRow(s[0]) + tail;
      if s[0].parent.Some? {
        LinkIsRead(s[0], tail);
      } else {
        assert LinkRows(s) + rest == tail;
        assert ShownLinks(s) == ShownLinks(s[1..]);
      }
    }
  }

  lemma {:induction false} FirstLink(l: Link, rows: string, rest: string)
    ensures LinkRow(l) + rows + rest == LinkRow(l) + (rows + rest)
    ensures l.parent.None? ==> LinkRow(l) + (rows + rest) == rows + rest
  {
    hide AddressText, Dec;
    if l.parent.None? { assert LinkRow(l) == ""; }
  }

  // ---------- The page

  lemma {:induction false} NeighborsPartIsRead(s: seq<Address>, rest: string)
    ensures ReadNeighborsPart(NeighborsPart(s) + rest) == Got(ShownNeighbors(s), rest)
  {
    hide NeighborRows, ReadNeighbors, Expect, ShownNeighbors;
    var end := "  </ul>\n" + rest;
    assert NeighborsPart(s) + rest == "  Neighbors\n  <ul>\n" + (NeighborRows(s) + end);
    ExpectOf("  Neighbors\n  <ul>\n", NeighborRows(s) + end);
    assert "  </ul>" <= end;
    NeighborsAreRead(s, end);
    ExpectOf("  </ul>\n", rest);
  }

  lemma {:induction false} RoutesPartIsRead(s: seq<Route>, rest: string)
    ensures ReadRoutesPart(RoutesPart(s) + rest) == Got(Some(ShownRoutes(s)), rest)
  {
    hide RouteRows, ReadRoutes, Expect, ShownRoutes;
    var end := "  </ul>\n" + rest;
    assert RoutesPart(s) + rest == "  Routes\n  <ul>\n" + (RouteRows(s) + end);
    ExpectOf("  Routes\n  <ul>\n", RouteRows(s) + end);
    assert "  </ul>" <= end;
    RoutesAreRead(s, end);
    ExpectOf("  </ul>\n", rest);
  }

  lemma {:induction false} LinksPartIsRead(s: seq<Link>, rest: string)
    requires s != []
    ensures ReadLinksPart(LinksPart(s) + rest) == Got(Some(ShownLinks(s)), rest)
  {
    hide LinkRows, ReadLinks, Expect, ShownLinks;
    var end := "  </ul>" + rest;
    assert LinksPart(s) + rest == "  Routing links\n  <ul>\n" + (LinkRows(s) + end);
    ExpectOf("  Routing links\n  <ul>\n", LinkRows(s) + end);
    assert "  </ul>" <= end;
    LinksAreRead(s, end);
    ExpectOf("  </ul>", rest);
  }

  /** The end of the page, the links part or the routes part: each heading is told from what
      may come in its place. */
  lemma {:induction false} Headings(links: seq<Link>)
    ensures var end := "\n</body>\n</html>\n";
      && Expect("  Routing links\n  <ul>\n", end) == None
      && Expect("  Routes\n  <ul>\n", end) == None
      && Expect("  Routes\n  <ul>\n", LinksPart(links) + end) == None
  {
    hide LinkRows;
    var end := "\n</body>\n</html>\n";
    assert end[0] != "  Routing links\n  <ul>\n"[0] && end[0] != "  Routes\n  <ul>\n"[0];
    var s := LinksPart(links) + end;
    if links == [] {
      assert s == end;
    } else {
      assert s[6] == "  Routing links\n  <ul>\n"[6] == 'i';
      assert "  Routes\n  <ul>\n"[6] == 'e';
    }
  }

  function Shown(nbrs: seq<Address>, routes: seq<Route>, links: seq<Link>, hasRoutes: bool, hasLinks: bool): PageShown {
    PageShown(
      ShownNeighbors(nbrs),
      if hasRoutes then Some(ShownRoutes(routes)) else None,
      if hasLinks && links != [] then Some(ShownLinks(links)) else None)
  }

  /** Reading the page gives back the three lists: every neighbour, every route with its
      prefix, length, next hop and lifetime, and every link with its child, parent and
      lifetime, in order, and nothing else. */
  lemma {:induction false} PageRoundTrip(
    nbrs: seq<Address>, routes: seq<Route>, links: seq<Link>, hasRoutes: bool, hasLinks: bool)
    ensures ReadPage(Page(nbrs, routes, links, hasRoutes, hasLinks)) ==
      Some(Shown(nbrs, routes, links, hasRoutes, hasLinks))
  {
    hide NeighborsPart, RoutesPart, LinksPart, ReadNeighborsPart, Expect, ShownNeighbors, ShownRoutes, ShownLinks,
         ReadRoutes, ReadLinks;
    var end := "\n</body>\n</html>\n";
    var linksText := if hasLinks then LinksPart(links) else "";
    var routesText := if hasRoutes then RoutesPart(routes) else "";
    var top := "<html>\n  <head>\n    <title>Contiki-NG</title>\n  </head>\n<body>\n";
    var s4 := linksText + end;
    var s3 := routesText + s4;
    PageGrouped(top, NeighborsPart(nbrs), routesText, linksText, end);
    ExpectOf(top, NeighborsPart(nbrs) + s3);
    NeighborsPartIsRead(nbrs, s3);
    Headings(links);
    assert "" + end == end && "" + s4 == s4;
    assert LinksPart([]) == "" by { NoLinks(); }
    if hasRoutes { RoutesPartIsRead(routes, s4); }
    if hasLinks && links != [] { LinksPartIsRead(links, end); }
  }

  lemma {:induction false} NoLinks()
    ensures LinksPart([]) == ""
  {
  }

  lemma {:induction false} PageGrouped(top: string, nbrs: string, routes: string, links: string, end: string)
    ensures top + nbrs + routes + links + end == top + (nbrs + (routes + (links + end)))
  {
  }

  // ---------- No two routers print the same page

  lemma {:induction false} GroupsTell(a: Address, b: Address)
    requires Groups(a) == Groups(b)
    ensures a == b
  {
    hide Compressed;
    PrinterIsInjective(a, b);
  }

  lemma {:induction false} NeighborsTell(s: seq<Address>, t: seq<Address>)
    requires ShownNeighbors(s) == ShownNeighbors(t)
    ensures s == t
  {
    hide Groups;
    if s != [] && t != [] {
      assert ShownNeighbors(s)[0] == ShownNeighbors(t)[0];
      assert ShownNeighbors(s)[1..] == ShownNeighbors(s[1..]) && ShownNeighbors(t)[1..] == ShownNeighbors(t[1..]);
      GroupsTell(s[0], t[0]);
      NeighborsTell(s[1..], t[1..]);
      assert s == [s[0]] + s[1..] && t == [t[0]] + t[1..];
    }
  }

  lemma {:induction false} RoutesTell(s: seq<Route>, t: seq<Route>)
    requires ShownRoutes(s) == ShownRoutes(t)
    ensures s == t
  {
    hide Groups;
    if s != [] && t != [] {
      assert ShownRoutes(s)[0] == ShownRoutes(t)[0];
      assert ShownRoutes(s)[1..] == ShownRoutes(s[1..]) && ShownRoutes(t)[1..] == ShownRoutes(t[1..]);
      GroupsTell(s[0].prefix, t[0].prefix);
      GroupsTell(s[0].nexthop, t[0].nexthop);
      RoutesTell(s[1..], t[1..]);
      assert s == [s[0]] + s[1..] && t == [t[0]] + t[1..];
    }
  }

  /** Equal pages come from equal lists of neighbours and of routes. */
  lemma {:induction false} PageTellsAll(
    nbrs: seq<Address>, routes: seq<Route>, links: seq<Link>,
    nbrs': seq<Address>, routes': seq<Route>, links': seq<Link>, hasLinks: bool)
    requires Page(nbrs, routes, links, true, hasLinks) == Page(nbrs', routes', links', true, hasLinks)
    ensures nbrs == nbrs' && routes == routes'
    ensures hasLinks && links != [] && links' != [] ==> ShownLinks(links) == ShownLinks(links')
  {
    hide Page, ReadPage, ShownNeighbors, ShownRoutes, ShownLinks;
    PageRoundTrip(nbrs, routes, links, true, hasLinks);
    PageRoundTrip(nbrs', routes', links', true, hasLinks);
    NeighborsTell(nbrs, nbrs');
    RoutesTell(routes, routes');
  }
}
