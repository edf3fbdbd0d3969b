/**
 * WireGuard configuration text: reading (client/internal/config/parser.go) and writing
 * (client/internal/config/model.go).
 */
module WgConfig {
  import opened Options
  import opened Text
  import opened WgLines

  datatype Interface = Interface(privateKey: string, addresses: seq<string>, dns: seq<string>, mtu: int,
    listenPort: int)

  datatype Peer = Peer(publicKey: string, presharedKey: string, allowedIPs: seq<string>, endpoint: string,
    keepalive: int)

  datatype Config = Config(interface: Interface, peers: seq<Peer>)

  const NO_INTERFACE := Interface("", [], [], 0, 0)
  const NO_PEER := Peer("", "", [], "", 0)
  const DEFAULT_MTU := 1420

  // ---- Keys -------------------------------------------------------------------

  /** The items of a comma-separated value, trimmed, without empty ones. */
  function Items(parts: seq<string>): seq<string> {
    if parts == [] then []
    else (if Trim(parts[0]) == "" then [] else [Trim(parts[0])]) + Items(parts[1..])
  }

  function ReadList(val: string): seq<string> {
    Items(Split(val, ','))
  }

  /** Errors of single keys are ignored by the caller, so a number that cannot be read changes nothing. */
  function SetInterface(f: Interface, key: Key, val: string): Interface {
    match key
    case PrivateKey => f.(privateKey := val)
    case Address => f.(addresses := f.addresses + ReadList(val))
    case DNS => f.(dns := f.dns + ReadList(val))
    case MTU => f.(mtu := Atoi(val).GetOr(f.mtu))
    case ListenPort => f.(listenPort := Atoi(val).GetOr(f.listenPort))
    case _ => f
  }

  function ReadKeepalive(val: string, before: int): int {
    if Lower(val) == "off" || val == "0" then 0 else Atoi(val).GetOr(before)
  }

  function SetPeer(p: Peer, key: Key, val: string): Peer {
    match key
    case PublicKey => p.(publicKey := val)
    case PresharedKey => p.(presharedKey := val)
    case AllowedIPs => p.(allowedIPs := p.allowedIPs + ReadList(val))
    case Endpoint => p.(endpoint := val)
    case PersistentKeepalive => p.(keepalive := ReadKeepalive(val, p.keepalive))
    case _ => p
  }

  // ---- Reading ----------------------------------------------------------------

  /** current: the peer whose section is being read. */
  datatype Reader = Reader(interface: Interface, peers: seq<Peer>, section: Section, current: Option<Peer>)

  const START := Reader(NO_INTERFACE, [], Top, None)

  function WithCurrent(r: Reader): seq<Peer> {
    if r.current.Some? then r.peers + [r.current.value] else r.peers
  }

  /** Only a [Peer] header keeps the peer read so far; any other header drops it. */
  function Feed(r: Reader, line: Line): Option<Reader> {
    match line
    case Malformed => None
    case Blank => Some(r)
    case Header(InPeer) => Some(r.(peers := WithCurrent(r), section := InPeer, current := Some(NO_PEER)))
    case Header(s) => Some(r.(section := s, current := None))
    case Entry(key, val) =>
      if r.section == InInterface then Some(r.(interface := SetInterface(r.interface, key, val)))
      else if r.section == InPeer then Some(r.(current := Some(SetPeer(r.current.GetOr(NO_PEER), key, val))))
      else Some(r)
  }

  function FeedAll(r: Reader, lines: seq<Line>): Option<Reader>
    decreases |lines|
  {
    if lines == [] then Some(r)
    else
      var n := Feed(r, lines[0]);
      if n.None? then None else FeedAll(n.value, lines[1..])
  }

  /** The config a finished reading stands for. */
  function Complete(f: Interface, peers: seq<Peer>): Option<Config> {
    if f.privateKey == "" || f.addresses == [] then None
    else Some(Config(f.(mtu := if f.mtu == 0 then DEFAULT_MTU else f.mtu), peers))
  }

  function Finish(r: Option<Reader>): Option<Config> {
    if r.None? then None else Complete(r.value.interface, WithCurrent(r.value))
  }

  function ParseLines(lines: seq<Line>): Option<Config> {
    Finish(FeedAll(START, lines))
  }

  /** The scanner's lines; an empty piece after the last newline reads like a blank line. */
  function Parse(text: string): Option<Config> {
    ParseLines(Parsed(Split(text, '\n')))
  }

  method AddParts(list: seq<string>, parts: seq<string>) returns (out: seq<string>)
    ensures out == list + Items(parts)
  {
    out := list;
    var i := 0;
    assert parts[0..] == parts;
    while i < |parts|
      invariant 0 <= i <= |parts|
      invariant out + Items(parts[i..]) == list + Items(parts)
    {
      ghost var before := out;
      var item := Trim(parts[i]);
      if item != "" {
        out := out + [item];
      }
      i := i + 1;
    }
    assert parts[i..] == [];
  }

  method AddItems(list: seq<string>, val: string) returns (out: seq<string>)
    ensures out == list + ReadList(val)
  {
    out := AddParts(list, Split(val, ','));
  }

  /** One turn of the scanner loop; None on a syntax error. */
  method ParseLine(r: Reader, line: Line) returns (n: Option<Reader>)
    ensures n == Feed(r, line)
  {
    var interface, peers, section, current := r.interface, r.peers, r.section, r.current;
    match line {
      case Malformed =>
        return None;
      case Blank =>
      case Header(s) =>
        if s == InPeer {
          if current.Some? {
            peers := peers + [current.value];
          }
          current := Some(NO_PEER);
        } else {
          current := None;
        }
        section := s;
      case Entry(key, val) =>
        if section == InInterface {
          interface := SetInterface(interface, key, val);
        } else if section == InPeer {
          if current.None? {
            current := Some(NO_PEER);
          }
          current := Some(SetPeer(current.value, key, val));
        }
    }
    n := Some(Reader(interface, peers, section, current));
  }

  lemma {:induction false} FeedFirst(r: Reader, line: Line, rest: seq<Line>)
    ensures FeedAll(r, [line] + rest) == var n := Feed(r, line); if n.None? then None else FeedAll(n.value, rest)
  {
    assert ([line] + rest)[1..] == rest;
  }

  method ScanLines(lines: seq<string>) returns (n: Option<Reader>)
    ensures n == FeedAll(START, Parsed(lines))
  {
    var r := START;
    var i := 0;
    while i < |lines|
      invariant i <= |lines|
      invariant FeedAll(r, Parsed(lines[i..])) == FeedAll(START, Parsed(lines))
    {
      FeedFirst(r, Classify(lines[i]), Parsed(lines[i + 1..]));
      n := ParseLine(r, Classify(lines[i]));
      if n.None? {
        return;
      }
      r := n.value;
      i := i + 1;
    }
    n := Some(r);
  }

  method ParseText(text: string) returns (res: Option<Config>)
    ensures res == Parse(text)
  {
    var r := ScanLines(Split(text, '\n'));
    if r.None? {
      return None;
    }
    var interface, peers := r.value.interface, r.value.peers;
    if r.value.current.Some? {
      peers := peers + [r.value.current.value];
    }
    if interface.privateKey == "" || interface.addresses == [] {
      return None;
    }
    if interface.mtu == 0 {
      interface := interface.(mtu := DEFAULT_MTU);
    }
    res := Some(Config(interface, peers));
  }

  lemma {:induction false} FeedAllConcat(r: Reader, a: seq<Line>, b: seq<Line>)
    ensures FeedAll(r, a + b) == (if FeedAll(r, a).None? then None else FeedAll(FeedAll(r, a).value, b))
    decreases |a|
  {
    if a == [] {
      assert a + b == b;
    } else {
      assert (a + b)[1..] == a[1..] + b;
      var n := Feed(r, a[0]);
      if n.Some? {
        FeedAllConcat(n.value, a[1..], b);
      }
    }
  }

  // ---- Writing ----------------------------------------------------------------

  /** Empty values, empty lists and numbers that are not positive are not written. */
  function ScalarLine(key: Key, v: string): seq<string> {
    if v != "" then [EntryLine(key, v)] else []
  }

  function ListLine(key: Key, items: seq<string>): seq<string> {
    if items != [] then [EntryLine(key, Join(items, ", "))] else []
  }

  function NumberLine(key: Key, n: int): seq<string> {
    if n > 0 then [EntryLine(key, Itoa(n))] else []
  }

  /** Neither is the default MTU. */
  function WrittenMTU(n: int): int {
    if n == DEFAULT_MTU then 0 else n
  }

  function InterfaceLines(f: Interface): seq<string> {
    ScalarLine(PrivateKey, f.privateKey) + ListLine(Address, f.addresses) + ListLine(DNS, f.dns)
    + NumberLine(MTU, WrittenMTU(f.mtu)) + NumberLine(ListenPort, f.listenPort)
  }

  function PeerLines(p: Peer): seq<string> {
    ScalarLine(PublicKey, p.publicKey) + ScalarLine(PresharedKey, p.presharedKey) + ScalarLine(Endpoint, p.endpoint)
    + ListLine(AllowedIPs, p.allowedIPs) + NumberLine(PersistentKeepalive, p.keepalive)
  }

  function PeersLines(peers: seq<Peer>): seq<string> {
    if peers == [] then [] else ["", "[Peer]"] + PeerLines(peers[0]) + PeersLines(peers[1..])
  }

  function FormatLines(c: Config): seq<string> {
    ["[Interface]"] + InterfaceLines(c.interface) + PeersLines(c.peers)
  }

  function Format(c: Config): string {
    TextOf(FormatLines(c))
  }

  /** The default MTU is not written, nor is one of 0 or less. */
  lemma DefaultIsNotWritten(c: Config, n: int)
    requires n <= 0 || n == 1420
    ensures Format(c.(interface := c.interface.(mtu := n))) == Format(c.(interface := c.interface.(mtu := 0)))
  {
    var f, g := c.interface.(mtu := n), c.interface.(mtu := 0);
    assert InterfaceLines(f) == InterfaceLines(g);
  }

  lemma PeerText(peers: seq<Peer>, i: nat, text: string)
    requires i < |peers|
    ensures text + TextOf(PeersLines(peers[i..])) ==
            text + TextOf(["", "[Peer]"]) + TextOf(PeerLines(peers[i])) + TextOf(PeersLines(peers[i + 1..]))
  {
    assert peers[i..][0] == peers[i] && peers[i..][1..] == peers[i + 1..];
    var head, own, rest := ["", "[Peer]"], PeerLines(peers[i]), PeersLines(peers[i + 1..]);
    TextOfConcat(head + own, rest);
    TextOfConcat(head, own);
    Regroup(text, TextOf(head), TextOf(own), TextOf(rest));
  }

  lemma Regroup(a: string, b: string, c: string, d: string)
    ensures a + (b + c + d) == a + b + c + d
  {
  }

  method FormatText(c: Config) returns (text: string)
    ensures text == Format(c)
  {
    var head := ["[Interface]"];
    TextOfConcat(head + InterfaceLines(c.interface), PeersLines(c.peers));
    TextOfConcat(head, InterfaceLines(c.interface));
    text := TextOf(head) + TextOf(InterfaceLines(c.interface));
    assert c.peers[0..] == c.peers;
    var i := 0;
    while i < |c.peers|
      invariant 0 <= i <= |c.peers|
      invariant text + TextOf(PeersLines(c.peers[i..])) == Format(c)
    {
      PeerText(c.peers, i, text);
      text := text + TextOf(["", "[Peer]"]) + TextOf(PeerLines(c.peers[i]));
      i := i + 1;
    }
    assert text + TextOf([]) == text;
  }
}
