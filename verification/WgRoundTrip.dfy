/** Reading back what was written. */
module WgRoundTrip {
  import opened Options
  import opened Text
  import opened WgLines
  import opened WgLineText
  import opened WgConfig
  import opened WgLists
  import opened WgReads

  // ---- What comes back ---------------------------------------------------------------

  function Positive(n: int): int {
    if n > 0 then n else 0
  }

  function ReadBackInterface(f: Interface): Interface {
    Interface(ReadValue(f.privateKey), ReadItems(f.addresses), ReadItems(f.dns), Positive(WrittenMTU(f.mtu)),
      Positive(f.listenPort))
  }

  function ReadBackPeer(p: Peer): Peer {
    Peer(ReadValue(p.publicKey), ReadValue(p.presharedKey), ReadItems(p.allowedIPs), ReadValue(p.endpoint),
      Positive(p.keepalive))
  }

  function ReadBackPeers(peers: seq<Peer>): seq<Peer> {
    if peers == [] then [] else [ReadBackPeer(peers[0])] + ReadBackPeers(peers[1..])
  }

  // ---- Values on one line --------------------------------------------------------------

  lemma {:induction false} JoinOneLine(items: seq<string>)
    requires NoNewlines(items)
    ensures '\n' !in Join(items, ", ")
  {
    if |items| > 1 {
      assert forall i :: 0 <= i < |items[1..]| ==> items[1..][i] == items[i + 1];
      JoinOneLine(items[1..]);
    }
  }

  lemma {:induction false} NumberReads(n: nat, v: string)
    requires v == Itoa(n)
    ensures '\n' !in v && ReadValue(v) == v && Atoi(v) == Some(n)
    ensures n > 0 ==> v != "0" && Lower(v) != "off"
  {
    AtoiItoa(n);
    assert forall i :: 0 <= i < |v| ==> IsDigit(v[i]);
    ReadClean(v);
    assert Lower(v)[0] == v[0];
  }

  // ---- What written sections look like to the parser ---------------------------------

  function ScalarEntry(key: Key, v: string): seq<Line> {
    if v != "" then [Entry(key, ReadValue(v))] else []
  }

  function ListEntry(key: Key, items: seq<string>): seq<Line> {
    if items != [] then [Entry(key, ReadValue(Join(items, ", ")))] else []
  }

  function NumberEntry(key: Key, n: int): seq<Line> {
    if n > 0 then [Entry(key, Itoa(n))] else []
  }

  function InterfaceEntries(f: Interface): seq<Line> {
    ScalarEntry(PrivateKey, f.privateKey) + ListEntry(Address, f.addresses) + ListEntry(DNS, f.dns)
    + NumberEntry(MTU, WrittenMTU(f.mtu)) + NumberEntry(ListenPort, f.listenPort)
  }

  function PeerEntries(p: Peer): seq<Line> {
    ScalarEntry(PublicKey, p.publicKey) + ScalarEntry(PresharedKey, p.presharedKey) + ScalarEntry(Endpoint, p.endpoint)
    + ListEntry(AllowedIPs, p.allowedIPs) + NumberEntry(PersistentKeepalive, p.keepalive)
  }

  function PeersEntries(peers: seq<Peer>): seq<Line> {
    if peers == [] then [] else [Blank, Header(InPeer)] + PeerEntries(peers[0]) + PeersEntries(peers[1..])
  }

  function FormatEntries(c: Config): seq<Line> {
    [Header(InInterface)] + InterfaceEntries(c.interface) + PeersEntries(c.peers)
  }

  /** Each text is one line, and reads as the entry it was written for. */
  ghost predicate WrittenAs(lines: seq<string>, entries: seq<Line>) {
    NoNewlines(lines) && Parsed(lines) == entries
  }

  lemma WrittenConcat(a: seq<string>, b: seq<string>, x: seq<Line>, y: seq<Line>)
    requires WrittenAs(a, x) && WrittenAs(b, y)
    ensures WrittenAs(a + b, x + y)
  {
    ParsedConcat(a, b);
  }

  lemma Written5(a1: seq<string>, a2: seq<string>, a3: seq<string>, a4: seq<string>, a5: seq<string>, x1: seq<Line>,
      x2: seq<Line>, x3: seq<Line>, x4: seq<Line>, x5: seq<Line>)
    requires WrittenAs(a1, x1) && WrittenAs(a2, x2) && WrittenAs(a3, x3) && WrittenAs(a4, x4) && WrittenAs(a5, x5)
    ensures WrittenAs(a1 + a2 + a3 + a4 + a5, x1 + x2 + x3 + x4 + x5)
  {
    WrittenConcat(a1, a2, x1, x2);
    WrittenConcat(a1 + a2, a3, x1 + x2, x3);
    WrittenConcat(a1 + a2 + a3, a4, x1 + x2 + x3, x4);
    WrittenConcat(a1 + a2 + a3 + a4, a5, x1 + x2 + x3 + x4, x5);
  }

  lemma OneWritten(line: string, l: Line)
    requires '\n' !in line && Classify(line) == l
    ensures WrittenAs([line], [l])
  {
    ParsedOne(line);
  }

  lemma WriteEntry(key: Key, v: string)
    requires key != OtherKey && '\n' !in v
    ensures WrittenAs([EntryLine(key, v)], [Entry(key, ReadValue(v))])
  {
    EntryReads(key, v, EntryLine(key, v));
    NoNewlineInEntry(key, v);
    OneWritten(EntryLine(key, v), Entry(key, ReadValue(v)));
  }

  lemma NoNewlineInEntry(key: Key, v: string)
    requires '\n' !in v
    ensures '\n' !in EntryLine(key, v)
  {
  }

  lemma WriteScalar(key: Key, v: string)
    requires key != OtherKey && '\n' !in v
    ensures WrittenAs(ScalarLine(key, v), ScalarEntry(key, v))
  {
    WriteEntry(key, v);
  }

  lemma WriteList(key: Key, items: seq<string>)
    requires key != OtherKey && NoNewlines(items)
    ensures WrittenAs(ListLine(key, items), ListEntry(key, items))
  {
    JoinOneLine(items);
    WriteEntry(key, Join(items, ", "));
  }

  lemma WriteNumber(key: Key, n: int)
    requires key != OtherKey
    ensures WrittenAs(NumberLine(key, n), NumberEntry(key, n))
  {
    if n > 0 {
      NumberReads(n, Itoa(n));
      WriteEntry(key, Itoa(n));
    }
  }

  lemma InterfaceWritten(f: Interface)
    requires OneLineInterface(f)
    ensures WrittenAs(InterfaceLines(f), InterfaceEntries(f))
  {
    WriteScalar(PrivateKey, f.privateKey);
    WriteList(Address, f.addresses);
    WriteList(DNS, f.dns);
    WriteNumber(MTU, WrittenMTU(f.mtu));
    WriteNumber(ListenPort, f.listenPort);
    Written5(ScalarLine(PrivateKey, f.privateKey), ListLine(Address, f.addresses), ListLine(DNS, f.dns),
             NumberLine(MTU, WrittenMTU(f.mtu)), NumberLine(ListenPort, f.listenPort),
             ScalarEntry(PrivateKey, f.privateKey), ListEntry(Address, f.addresses), ListEntry(DNS, f.dns),
             NumberEntry(MTU, WrittenMTU(f.mtu)), NumberEntry(ListenPort, f.listenPort));
  }

  lemma PeerWritten(p: Peer)
    requires OneLinePeer(p)
    ensures WrittenAs(PeerLines(p), PeerEntries(p))
  {
    WriteScalar(PublicKey, p.publicKey);
    WriteScalar(PresharedKey, p.presharedKey);
    WriteScalar(Endpoint, p.endpoint);
    WriteList(AllowedIPs, p.allowedIPs);
    WriteNumber(PersistentKeepalive, p.keepalive);
    Written5(ScalarLine(PublicKey, p.publicKey), ScalarLine(PresharedKey, p.presharedKey),
             ScalarLine(Endpoint, p.endpoint), ListLine(AllowedIPs, p.allowedIPs),
             NumberLine(PersistentKeepalive, p.keepalive), ScalarEntry(PublicKey, p.publicKey),
             ScalarEntry(PresharedKey, p.presharedKey), ScalarEntry(Endpoint, p.endpoint),
             ListEntry(AllowedIPs, p.allowedIPs), NumberEntry(PersistentKeepalive, p.keepalive));
  }

  lemma TopWritten(head: string)
    requires head == "[Interface]"
    ensures WrittenAs([head], [Header(InInterface)])
  {
    assert '\n' !in head by { TopLine(head); }
    assert Classify(head) == Header(InInterface) by { InterfaceHeader(head); }
    OneWritten(head, Header(InInterface));
  }

  lemma TopLine(head: string)
    requires head == "[Interface]"
    ensures '\n' !in head
  {
  }

  lemma PeerTopWritten(head: string)
    requires head == "[Peer]"
    ensures WrittenAs([head], [Header(InPeer)])
  {
    assert '\n' !in head;
    assert Classify(head) == Header(InPeer) by { PeerHeader(head); }
    OneWritten(head, Header(InPeer));
  }

  lemma PeerHeadWritten(head: string)
    requires head == "[Peer]"
    ensures WrittenAs(["", head], [Blank, Header(InPeer)])
  {
    PeerTopWritten(head);
  }

  lemma OnePeerWritten(p: Peer, head: seq<string>, rest: seq<string>, entries: seq<Line>)
    requires OneLinePeer(p) && WrittenAs(head, [Blank, Header(InPeer)]) && WrittenAs(rest, entries)
    ensures WrittenAs(head + PeerLines(p) + rest, [Blank, Header(InPeer)] + PeerEntries(p) + entries)
  {
    PeerWritten(p);
    WrittenConcat(head, PeerLines(p), [Blank, Header(InPeer)], PeerEntries(p));
    WrittenConcat(head + PeerLines(p), rest, [Blank, Header(InPeer)] + PeerEntries(p), entries);
  }

  lemma {:induction false} PeersWritten(peers: seq<Peer>)
    requires forall i :: 0 <= i < |peers| ==> OneLinePeer(peers[i])
    ensures WrittenAs(PeersLines(peers), PeersEntries(peers))
    decreases |peers|
  {
    if peers != [] {
      PeersWritten(peers[1..]);
      PeerHeadWritten("[Peer]");
      OnePeerWritten(peers[0], ["", "[Peer]"], PeersLines(peers[1..]), PeersEntries(peers[1..]));
    }
  }

  lemma FormatWritten(c: Config, top: seq<string>)
    requires OneLine(c) && top == ["[Interface]"]
    ensures WrittenAs(FormatLines(c), FormatEntries(c))
  {
    TopWritten(top[0]);
    assert [top[0]] == top;
    InterfaceWritten(c.interface);
    PeersWritten(c.peers);
    WrittenConcat(top, InterfaceLines(c.interface), [Header(InInterface)], InterfaceEntries(c.interface));
    WrittenConcat(top + InterfaceLines(c.interface), PeersLines(c.peers),
                  [Header(InInterface)] + InterfaceEntries(c.interface), PeersEntries(c.peers));
  }

  lemma FormattedLines(c: Config)
    requires OneLine(c)
    ensures Parsed(Split(Format(c), '\n')) == FormatEntries(c) + [Blank]
  {
    FormatWritten(c, ["[Interface]"]);
    LinesOfText(FormatLines(c));
    ParsedConcat(FormatLines(c), [""]);
    ParsedOne("");
  }

  // ---- Reading entries --------------------------------------------------------------------

  lemma {:induction false} Feed2(r: Reader, a: seq<Line>, b: seq<Line>, ra: Reader)
    requires FeedAll(r, a) == Some(ra)
    ensures FeedAll(r, a + b) == FeedAll(ra, b)
  {
    FeedAllConcat(r, a, b);
  }

  lemma {:induction false} Feed4(r0: Reader, r1: Reader, r2: Reader, r3: Reader, r4: Reader, a1: seq<Line>,
      a2: seq<Line>, a3: seq<Line>, a4: seq<Line>)
    requires FeedAll(r0, a1) == Some(r1) && FeedAll(r1, a2) == Some(r2)
    requires FeedAll(r2, a3) == Some(r3) && FeedAll(r3, a4) == Some(r4)
    ensures FeedAll(r0, a1 + a2 + a3 + a4) == Some(r4)
  {
    Feed2(r0, a1, a2, r1);
    Feed2(r0, a1 + a2, a3, r2);
    Feed2(r0, a1 + a2 + a3, a4, r3);
  }

  lemma {:induction false} FeedOne(r: Reader, l: Line)
    ensures FeedAll(r, [l]) == Feed(r, l)
  {
    assert [l][1..] == [];
  }

  lemma AppendToNone<T>(none: seq<T>, xs: seq<T>)
    requires none == []
    ensures none + xs == xs
  {
  }

  lemma EmptyReads(v: string)
    ensures v == "" ==> ReadValue(v) == ""
  {
  }

  function InSection(f: Interface): Reader {
    Reader(f, [], InInterface, None)
  }

  /** An entry, if there is one, is handed to the interface. */
  lemma {:induction false} FeedInterface(f: Interface, entries: seq<Line>, key: Key, v: string, g: Interface)
    requires (entries == [Entry(key, v)] && g == SetInterface(f, key, v)) || (entries == [] && g == f)
    ensures FeedAll(InSection(f), entries) == Some(InSection(g))
  {
    FeedOne(InSection(f), Entry(key, v));
  }

  lemma {:induction false} SetAddresses(f: Interface, items: seq<string>)
    requires f.addresses == []
    ensures f.(addresses := ReadItems(items)) ==
            if items == [] then f else SetInterface(f, Address, ReadValue(Join(items, ", ")))
  {
    AppendToNone(f.addresses, ReadItems(items));
  }

  lemma {:induction false} SetDNS(f: Interface, items: seq<string>)
    requires f.dns == []
    ensures f.(dns := ReadItems(items)) == if items == [] then f else SetInterface(f, DNS, ReadValue(Join(items, ", ")))
  {
    AppendToNone(f.dns, ReadItems(items));
  }

  lemma {:induction false} SetMTU(f: Interface, n: int)
    requires f.mtu == 0
    ensures f.(mtu := Positive(n)) == if n <= 0 then f else SetInterface(f, MTU, Itoa(n))
  {
    if n > 0 {
      NumberReads(n, Itoa(n));
    }
  }

  lemma {:induction false} SetPort(f: Interface, n: int)
    requires f.listenPort == 0
    ensures f.(listenPort := Positive(n)) == if n <= 0 then f else SetInterface(f, ListenPort, Itoa(n))
  {
    if n > 0 {
      NumberReads(n, Itoa(n));
    }
  }

  lemma {:induction false} ReadListEntry(f: Interface, key: Key, items: seq<string>, g: Interface)
    requires g == if items == [] then f else SetInterface(f, key, ReadValue(Join(items, ", ")))
    ensures FeedAll(InSection(f), ListEntry(key, items)) == Some(InSection(g))
  {
    FeedInterface(f, ListEntry(key, items), key, ReadValue(Join(items, ", ")), g);
  }

  lemma {:induction false} ReadNumber(f: Interface, key: Key, n: int, g: Interface)
    requires g == if n <= 0 then f else SetInterface(f, key, Itoa(n))
    ensures FeedAll(InSection(f), NumberEntry(key, n)) == Some(InSection(g))
  {
    if n > 0 {
      FeedInterface(f, NumberEntry(key, n), key, Itoa(n), g);
    }
  }

  lemma ReadInterface(f: Interface)
    ensures FeedAll(InSection(NO_INTERFACE), InterfaceEntries(f)) == Some(InSection(ReadBackInterface(f)))
  {
    var b := ReadBackInterface(f);
    var f1 := Interface(b.privateKey, [], [], 0, 0);
    var f2 := Interface(b.privateKey, b.addresses, [], 0, 0);
    var f3 := Interface(b.privateKey, b.addresses, b.dns, 0, 0);
    var f4 := Interface(b.privateKey, b.addresses, b.dns, b.mtu, 0);
    EmptyReads(f.privateKey);
    SetAddresses(f1, f.addresses);
    ReadListEntry(f1, Address, f.addresses, f2);
    SetDNS(f2, f.dns);
    ReadListEntry(f2, DNS, f.dns, f3);
    SetMTU(f3, WrittenMTU(f.mtu));
    ReadNumber(f3, MTU, WrittenMTU(f.mtu), f4);
    SetPort(f4, f.listenPort);
    ReadNumber(f4, ListenPort, f.listenPort, b);
    Feed4(InSection(NO_INTERFACE), InSection(f1), InSection(f2), InSection(f3), InSection(f4),
          ScalarEntry(PrivateKey, f.privateKey), ListEntry(Address, f.addresses), ListEntry(DNS, f.dns),
          NumberEntry(MTU, WrittenMTU(f.mtu)));
    Feed2(InSection(NO_INTERFACE),
          ScalarEntry(PrivateKey, f.privateKey) + ListEntry(Address, f.addresses) + ListEntry(DNS, f.dns)
          + NumberEntry(MTU, WrittenMTU(f.mtu)), NumberEntry(ListenPort, f.listenPort), InSection(f4));
  }

  /** A peer section being read, after the peers of r. */
  function AtPeer(r: Reader, p: Peer): Reader {
    Reader(r.interface, WithCurrent(r), InPeer, Some(p))
  }

  /** An entry, if there is one, is handed to the peer. */
  lemma {:induction false} FeedPeer(r: Reader, p: Peer, entries: seq<Line>, key: Key, v: string, q: Peer)
    requires (entries == [Entry(key, v)] && q == SetPeer(p, key, v)) || (entries == [] && q == p)
    ensures FeedAll(AtPeer(r, p), entries) == Some(AtPeer(r, q))
  {
    FeedOne(AtPeer(r, p), Entry(key, v));
  }

  /** r: what the value v reads as. */
  lemma SetScalars(p: Peer, v: string, r: string)
    requires v == "" ==> r == ""
    ensures p.publicKey == "" ==> p.(publicKey := r) == if v == "" then p else SetPeer(p, PublicKey, r)
    ensures p.presharedKey == "" ==> p.(presharedKey := r) == if v == "" then p else SetPeer(p, PresharedKey, r)
    ensures p.endpoint == "" ==> p.(endpoint := r) == if v == "" then p else SetPeer(p, Endpoint, r)
  {
  }

  lemma {:induction false} SetKeepalive(p: Peer, n: int)
    requires p.keepalive == 0
    ensures p.(keepalive := Positive(n)) == if n <= 0 then p else SetPeer(p, PersistentKeepalive, Itoa(n))
  {
    if n > 0 {
      NumberReads(n, Itoa(n));
    }
  }

  lemma ReadPeerScalar(r: Reader, p: Peer, key: Key, v: string, q: Peer)
    requires q == if v == "" then p else SetPeer(p, key, ReadValue(v))
    ensures FeedAll(AtPeer(r, p), ScalarEntry(key, v)) == Some(AtPeer(r, q))
  {
    FeedPeer(r, p, ScalarEntry(key, v), key, ReadValue(v), q);
  }

  lemma {:induction false} ReadPeerList(r: Reader, p: Peer, key: Key, items: seq<string>, q: Peer)
    requires q == if items == [] then p else SetPeer(p, key, ReadValue(Join(items, ", ")))
    ensures FeedAll(AtPeer(r, p), ListEntry(key, items)) == Some(AtPeer(r, q))
  {
    FeedPeer(r, p, ListEntry(key, items), key, ReadValue(Join(items, ", ")), q);
  }

  lemma {:induction false} ReadPeerNumber(r: Reader, p: Peer, key: Key, n: int, q: Peer)
    requires q == if n <= 0 then p else SetPeer(p, key, Itoa(n))
    ensures FeedAll(AtPeer(r, p), NumberEntry(key, n)) == Some(AtPeer(r, q))
  {
    if n > 0 {
      FeedPeer(r, p, NumberEntry(key, n), key, Itoa(n), q);
    }
  }

  lemma ReadPeerKeys(r: Reader, p: Peer, p1: Peer, p2: Peer)
    requires p1 == Peer(ReadValue(p.publicKey), "", [], "", 0) && p2 == p1.(presharedKey := ReadValue(p.presharedKey))
    ensures FeedAll(AtPeer(r, NO_PEER), ScalarEntry(PublicKey, p.publicKey) + ScalarEntry(PresharedKey,
            p.presharedKey)) ==
            Some(AtPeer(r, p2))
  {
    assert FeedAll(AtPeer(r, NO_PEER), ScalarEntry(PublicKey, p.publicKey)) == Some(AtPeer(r, p1)) by {
      EmptyReads(p.publicKey);
      SetScalars(NO_PEER, p.publicKey, ReadValue(p.publicKey));
      ReadPeerScalar(r, NO_PEER, PublicKey, p.publicKey, p1);
    }
    assert FeedAll(AtPeer(r, p1), ScalarEntry(PresharedKey, p.presharedKey)) == Some(AtPeer(r, p2)) by {
      EmptyReads(p.presharedKey);
      SetScalars(p1, p.presharedKey, ReadValue(p.presharedKey));
      ReadPeerScalar(r, p1, PresharedKey, p.presharedKey, p2);
    }
    Feed2(AtPeer(r, NO_PEER), ScalarEntry(PublicKey, p.publicKey), ScalarEntry(PresharedKey, p.presharedKey),
      AtPeer(r, p1));
  }

  lemma {:induction false} ReadPeerScalars(r: Reader, p: Peer, p3: Peer, entries: seq<Line>)
    requires p3 == Peer(ReadValue(p.publicKey), ReadValue(p.presharedKey), [], ReadValue(p.endpoint), 0)
    requires entries == ScalarEntry(PublicKey, p.publicKey) + ScalarEntry(PresharedKey, p.presharedKey)
             + ScalarEntry(Endpoint, p.endpoint)
    ensures FeedAll(AtPeer(r, NO_PEER), entries) == Some(AtPeer(r, p3))
  {
    var p2 := p3.(endpoint := "");
    ReadPeerKeys(r, p, p2.(presharedKey := ""), p2);
    EmptyReads(p.endpoint);
    SetScalars(p2, p.endpoint, ReadValue(p.endpoint));
    ReadPeerScalar(r, p2, Endpoint, p.endpoint, p3);
    Feed2(AtPeer(r, NO_PEER), ScalarEntry(PublicKey, p.publicKey) + ScalarEntry(PresharedKey, p.presharedKey),
          ScalarEntry(Endpoint, p.endpoint), AtPeer(r, p2));
  }

  lemma ReadPeer(r: Reader, p: Peer)
    ensures FeedAll(AtPeer(r, NO_PEER), PeerEntries(p)) == Some(AtPeer(r, ReadBackPeer(p)))
  {
    var b := ReadBackPeer(p);
    var p3 := Peer(b.publicKey, b.presharedKey, [], b.endpoint, 0);
    var p4 := p3.(allowedIPs := b.allowedIPs);
    var scalars := ScalarEntry(PublicKey, p.publicKey) + ScalarEntry(PresharedKey, p.presharedKey)
      + ScalarEntry(Endpoint, p.endpoint);
    ReadPeerScalars(r, p, p3, scalars);
    ReadPeerList(r, p3, AllowedIPs, p.allowedIPs, p4);
    SetKeepalive(p4, p.keepalive);
    ReadPeerNumber(r, p4, PersistentKeepalive, p.keepalive, b);
    Feed2(AtPeer(r, NO_PEER), scalars, ListEntry(AllowedIPs, p.allowedIPs), AtPeer(r, p3));
    Feed2(AtPeer(r, NO_PEER), scalars + ListEntry(AllowedIPs, p.allowedIPs),
      NumberEntry(PersistentKeepalive, p.keepalive), AtPeer(r, p4));
  }

  lemma {:induction false} ReadOnePeer(r: Reader, p: Peer, rest: seq<Line>)
    ensures FeedAll(r, [Blank, Header(InPeer)] + PeerEntries(p) + rest) == FeedAll(AtPeer(r, ReadBackPeer(p)), rest)
  {
    ReadPeer(r, p);
    Feed2(r, [Blank, Header(InPeer)], PeerEntries(p), AtPeer(r, NO_PEER));
    Feed2(r, [Blank, Header(InPeer)] + PeerEntries(p), rest, AtPeer(r, ReadBackPeer(p)));
  }

  /** What was read so far, with the last peer still open. */
  ghost predicate Holds(n: Option<Reader>, f: Interface, peers: seq<Peer>) {
    n.Some? && n.value.interface == f && WithCurrent(n.value) == peers
  }

  lemma AppendFirst<T>(a: seq<T>, x: T, xs: seq<T>)
    ensures a + [x] + xs == a + ([x] + xs)
  {
  }

  lemma {:induction false} ReadPeers(r: Reader, peers: seq<Peer>)
    ensures Holds(FeedAll(r, PeersEntries(peers)), r.interface, WithCurrent(r) + ReadBackPeers(peers))
    decreases |peers|
  {
    if peers == [] {
      assert WithCurrent(r) + [] == WithCurrent(r);
    } else {
      ReadOnePeer(r, peers[0], PeersEntries(peers[1..]));
      ReadPeers(AtPeer(r, ReadBackPeer(peers[0])), peers[1..]);
      AppendFirst(WithCurrent(r), ReadBackPeer(peers[0]), ReadBackPeers(peers[1..]));
    }
  }

  lemma {:induction false} Feed3(r: Reader, a: seq<Line>, ra: Reader, b: seq<Line>, rb: Reader, c: seq<Line>)
    requires FeedAll(r, a) == Some(ra) && FeedAll(ra, b) == Some(rb)
    ensures FeedAll(r, a + b + c) == FeedAll(rb, c)
  {
    Feed2(r, a, b, ra);
    Feed2(r, a + b, c, rb);
  }

  /** start, begun and s: the reader before and after the first header, and after the interface. */
  lemma {:induction false} ReadAfterHead(start: Reader, head: seq<Line>, begun: Reader, entries: seq<Line>, s: Reader,
      peers: seq<Peer>)
    requires FeedAll(start, head) == Some(begun) && FeedAll(begun, entries) == Some(s) && WithCurrent(s) == []
    ensures Holds(FeedAll(start, head + entries + PeersEntries(peers)), s.interface, ReadBackPeers(peers))
  {
    Feed3(start, head, begun, entries, s, PeersEntries(peers));
    ReadPeers(s, peers);
    AppendToNone(WithCurrent(s), ReadBackPeers(peers));
  }

  lemma {:induction false} ReadSections(head: Line, entries: seq<Line>, b: Interface, peers: seq<Peer>)
    requires head == Header(InInterface) && FeedAll(InSection(NO_INTERFACE), entries) == Some(InSection(b))
    ensures Holds(FeedAll(START, [head] + entries + PeersEntries(peers)), b, ReadBackPeers(peers))
  {
    ReadAfterHead(START, [head], InSection(NO_INTERFACE), entries, InSection(b), peers);
  }

  lemma ReadFormat(c: Config)
    ensures Holds(FeedAll(START, FormatEntries(c)), ReadBackInterface(c.interface), ReadBackPeers(c.peers))
  {
    ReadInterface(c.interface);
    ReadSections(Header(InInterface), InterfaceEntries(c.interface), ReadBackInterface(c.interface), c.peers);
  }

  lemma {:induction false} ReadTrailingBlank(entries: seq<Line>, f: Interface, peers: seq<Peer>)
    requires Holds(FeedAll(START, entries), f, peers)
    ensures ParseLines(entries + [Blank]) == Complete(f, peers)
  {
    var r := FeedAll(START, entries).value;
    Feed2(START, entries, [Blank], r);
    FeedOne(r, Blank);
  }

  // ---- The round trip -----------------------------------------------------------------

  /** What reading a written config gives, for every config. */
  lemma FormatReads(c: Config)
    requires OneLine(c)
    ensures Parse(Format(c)) == Complete(ReadBackInterface(c.interface), ReadBackPeers(c.peers))
  {
    FormattedLines(c);
    ReadFormat(c);
    ReadTrailingBlank(FormatEntries(c), ReadBackInterface(c.interface), ReadBackPeers(c.peers));
  }

  predicate CleanInterface(f: Interface) {
    CleanValue(f.privateKey) && CleanItems(f.addresses) && CleanItems(f.dns) && f.mtu >= 0 && f.listenPort >= 0
  }

  predicate CleanPeer(p: Peer) {
    && CleanValue(p.publicKey) && CleanValue(p.presharedKey) && CleanValue(p.endpoint)
    && CleanItems(p.allowedIPs) && p.keepalive >= 0
  }

  predicate Clean(c: Config) {
    CleanInterface(c.interface) && CleanPeers(c.peers)
  }

  lemma PeerReadsBackIff(p: Peer)
    ensures ReadBackPeer(p) == p <==> CleanPeer(p)
  {
    ReadsBackIff(p.publicKey);
    ReadsBackIff(p.presharedKey);
    ReadsBackIff(p.endpoint);
    ListReadsBackIff(p.allowedIPs);
  }

  predicate CleanPeers(peers: seq<Peer>) {
    forall i :: 0 <= i < |peers| ==> CleanPeer(peers[i])
  }

  lemma SameIffParts<T>(x: T, xs: seq<T>, ys: seq<T>)
    requires ys != []
    ensures [x] + xs == ys <==> x == ys[0] && xs == ys[1..]
  {
    assert ys == [ys[0]] + ys[1..];
    assert [x] + xs == ys ==> ([x] + xs)[1..] == xs;
  }

  lemma {:induction false} PeersReadBackIff(peers: seq<Peer>)
    ensures ReadBackPeers(peers) == peers <==> CleanPeers(peers)
    decreases |peers|
  {
    if peers != [] {
      PeerReadsBackIff(peers[0]);
      PeersReadBackIff(peers[1..]);
      SameIffParts(ReadBackPeer(peers[0]), ReadBackPeers(peers[1..]), peers);
    }
  }

  lemma InterfaceReadsBackIff(f: Interface)
    ensures ReadBackInterface(f) == f.(mtu := WrittenMTU(f.mtu)) <==> CleanInterface(f)
  {
    ReadsBackIff(f.privateKey);
    ListReadsBackIff(f.addresses);
    ListReadsBackIff(f.dns);
  }

  /** The MTU that reading fills in. */
  function WithMTU(c: Config): Config {
    c.(interface := c.interface.(mtu := if c.interface.mtu == 0 then 1420 else c.interface.mtu))
  }

  predicate HasEssentials(f: Interface) {
    f.privateKey != "" && f.addresses != []
  }

  /**
   * Reading what was written gives the config back, MTU 0 as the default, exactly for one-line clean configs with a key
   * and an address.
   */
  lemma RoundTripIff(c: Config)
    ensures Parse(Format(c)) == Some(WithMTU(c)) <==> OneLine(c) && Clean(c) && HasEssentials(c.interface)
  {
    if Parse(Format(c)) == Some(WithMTU(c)) {
      ParseIsGood(Format(c));
    }
    if OneLine(c) {
      FormatReads(c);
      InterfaceReadsBackIff(c.interface);
      PeersReadBackIff(c.peers);
    }
  }

  // ---- What was read once is written and read again -----------------------------------------

  predicate Writable(f: Interface) {
    NoLaterHash(f.addresses) && NoLaterHash(f.dns) && f.mtu >= 0 && f.listenPort >= 0
  }

  predicate WritablePeer(p: Peer) {
    NoLaterHash(p.allowedIPs) && p.keepalive >= 0
  }

  /** No number is negative, and no list item but the first starts like a comment. */
  predicate SurvivesWriting(c: Config) {
    Writable(c.interface) && forall i :: 0 <= i < |c.peers| ==> WritablePeer(c.peers[i])
  }

  lemma GoodIsCleanIff(c: Config)
    requires GoodInterface(c.interface) && GoodPeers(c.peers)
    ensures Clean(c) <==> SurvivesWriting(c)
  {
    forall i | 0 <= i < |c.peers| ensures CleanPeer(c.peers[i]) <==> WritablePeer(c.peers[i]) {
    }
  }

  /** A config that was read is the same after being written and read again exactly when it survives writing. */
  lemma ParsedRoundTripIff(text: string, c: Config)
    requires Parse(text) == Some(c)
    ensures Parse(Format(c)) == Some(c) <==> SurvivesWriting(c)
  {
    ParseIsGood(text);
    RoundTripIff(c);
    GoodIsCleanIff(c);
  }
}
