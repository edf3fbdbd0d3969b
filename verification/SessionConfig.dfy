/**
 * The configuration a managed session hands to the client: written by the server (server/internal/session/manager.go),
 * completed by the client (client/app.go).
 */
module SessionConfig {
  import opened Options
  import opened Text
  import opened WgLines
  import opened WgLineText
  import opened WgConfig
  import opened WgLists
  import opened WgReads
  import opened WgRoundTrip
  import opened Dedup
  import opened LineEdits

  // ---- The server's part ---------------------------------------------------------------

  /** The subnet, then the distinct resource networks. */
  function AllowedItems(subnet: string, cidrs: seq<string>): seq<string> {
    [subnet] + Firsts({subnet}, cidrs)
  }

  method BuildAllowedIPs(subnet: string, cidrs: seq<string>) returns (result: string)
    ensures result == Join(AllowedItems(subnet, cidrs), ", ")
  {
    result := subnet;
    var seen := {subnet};
    ghost var done := [subnet];
    var i := 0;
    while i < |cidrs|
      invariant 0 <= i <= |cidrs|
      invariant done != [] && result == Join(done, ", ")
      invariant done + Firsts(seen, cidrs[i..]) == AllowedItems(subnet, cidrs)
    {
      if cidrs[i] !in seen {
        JoinMore(done, cidrs[i], ", ");
        AppendFirst(done, cidrs[i], Firsts(seen + {cidrs[i]}, cidrs[i + 1..]));
        result := result + (", " + cidrs[i]);
        seen := seen + {cidrs[i]};
        done := done + [cidrs[i]];
      }
      i := i + 1;
    }
    assert done + [] == done;
  }

  /** What the text is made from. dns is empty if the server has none. */
  datatype Session = Session(ip: string, dns: string, serverKey: string, psk: string, endpoint: string, allowed: string)

  function DNSLine(dns: string): seq<string> {
    if dns != "" then [EntryLine(DNS, dns)] else []
  }

  function BeforeEndpoint(s: Session): seq<string> {
    [EntryLine(Address, s.ip + "/32")] + DNSLine(s.dns) + ["", "[Peer]"]
    + [EntryLine(PublicKey, s.serverKey), EntryLine(PresharedKey, s.psk)]
  }

  function AfterEndpoint(s: Session): seq<string> {
    [EntryLine(AllowedIPs, s.allowed), EntryLine(PersistentKeepalive, Itoa(25))]
  }

  function LinesOf(top: string, before: seq<string>, endpoint: string, after: seq<string>): seq<string> {
    [top] + before + [EntryLine(Endpoint, endpoint)] + after
  }

  function SessionLines(s: Session): seq<string> {
    LinesOf("[Interface]", BeforeEndpoint(s), s.endpoint, AfterEndpoint(s))
  }

  function SessionText(s: Session): string {
    TextOf(SessionLines(s))
  }

  // ---- The client's part ------------------------------------------------------------------

  /** "\r\n" becomes "\n". */
  function StripCR(s: string): string {
    if |s| < 2 then s
    else if s[0] == '\r' && s[1] == '\n' then ['\n'] + StripCR(s[2..])
    else [s[0]] + StripCR(s[1..])
  }

  predicate IsInterfaceLine(line: string) {
    Lower(Trim(line)) == "[interface]"
  }

  function InjectKey(text: string, key: string): string {
    Join(InsertAfter(IsInterfaceLine, EntryLine(PrivateKey, key), Split(StripCR(text), '\n')), "\n")
  }

  method InjectPrivateKey(text: string, key: string) returns (r: string)
    ensures r == InjectKey(text, key)
  {
    var lines := InsertLoop(IsInterfaceLine, EntryLine(PrivateKey, key), Split(StripCR(text), '\n'));
    r := Join(lines, "\n");
  }

  predicate IsEndpointLine(line: string) {
    StartsWith(Lower(Trim(line)), "endpoint")
  }

  function ReplaceEndpoint(text: string, endpoint: string): string {
    Join(ReplaceFirst(IsEndpointLine, EntryLine(Endpoint, endpoint), Split(text, '\n')), "\n")
  }

  /** The source returns the text itself if no line matches; joining what was split is the same. */
  method ReplaceWgEndpoint(text: string, endpoint: string) returns (r: string)
    ensures r == ReplaceEndpoint(text, endpoint)
  {
    var lines := ReplaceLoop(IsEndpointLine, EntryLine(Endpoint, endpoint), Split(text, '\n'));
    r := Join(lines, "\n");
  }

  datatype Candidate = Candidate(endpoint: string, ip: string, port: int)

  /** "" if the candidate names no endpoint. */
  function Resolve(c: Candidate): string {
    if Trim(c.endpoint) == "" && c.ip != "" && c.port > 0 then c.ip + ":" + Itoa(c.port) else Trim(c.endpoint)
  }

  function ResolveAll(cs: seq<Candidate>): seq<string> {
    if cs == [] then [] else [Resolve(cs[0])] + ResolveAll(cs[1..])
  }

  /** The distinct endpoints, in order. */
  function Endpoints(cs: seq<Candidate>): seq<string> {
    Firsts({""}, ResolveAll(cs))
  }

  function ConfigsFor(base: string, endpoints: seq<string>): (r: seq<string>)
    ensures |r| == |endpoints|
  {
    if endpoints == [] then []
    else ConfigsFor(base, endpoints[..|endpoints| - 1]) + [ReplaceEndpoint(base, endpoints[|endpoints| - 1])]
  }

  lemma {:induction false} ConfigAt(base: string, endpoints: seq<string>, i: nat)
    requires i < |endpoints|
    ensures ConfigsFor(base, endpoints)[i] == ReplaceEndpoint(base, endpoints[i])
    decreases |endpoints|
  {
    if i < |endpoints| - 1 {
      ConfigAt(base, endpoints[..|endpoints| - 1], i);
    }
  }

  method ConfigLoop(base: string, endpoints: seq<string>) returns (configs: seq<string>)
    ensures configs == ConfigsFor(base, Firsts({""}, endpoints))
  {
    configs := [];
    var seen := {""};
    ghost var done: seq<string> := [];
    var i := 0;
    assert endpoints[0..] == endpoints;
    while i < |endpoints|
      invariant 0 <= i <= |endpoints|
      invariant done + Firsts(seen, endpoints[i..]) == Firsts({""}, endpoints)
      invariant configs == ConfigsFor(base, done)
    {
      if endpoints[i] !in seen {
        AppendFirst(done, endpoints[i], Firsts(seen + {endpoints[i]}, endpoints[i + 1..]));
        seen := seen + {endpoints[i]};
        var config := ReplaceWgEndpoint(base, endpoints[i]);
        configs := configs + [config];
        done := done + [endpoints[i]];
      }
      i := i + 1;
    }
    assert done + [] == done;
  }

  /** One config for each distinct endpoint in order, or the text itself if there is none. */
  method EndpointConfigs(base: string, cs: seq<Candidate>) returns (configs: seq<string>)
    ensures Endpoints(cs) == [] ==> configs == [base]
    ensures Endpoints(cs) != [] ==>
              |configs| == |Endpoints(cs)| && forall i ::
                0 <= i < |configs| ==> configs[i] == ReplaceEndpoint(base, Endpoints(cs)[i])
  {
    configs := ConfigLoop(base, ResolveAll(cs));
    forall i | 0 <= i < |configs| ensures configs[i] == ReplaceEndpoint(base, Endpoints(cs)[i]) {
      ConfigAt(base, Endpoints(cs), i);
    }
    if |configs| == 0 {
      configs := [base];
    }
  }

  // ---- Line ends and endpoints --------------------------------------------------------------

  /** A line in front of a break stays as it is. nl: the break and what follows; cut: the same after the replacement. */
  lemma {:induction false} LineInFront(line: string, nl: string, cut: string)
    requires '\n' !in line && nl != "" && StripCR(nl) == cut
    requires nl[0] == '\n' ==> line == "" || line[|line| - 1] != '\r'
    ensures StripCR(line + nl) == line + cut
  {
    if line == "" {
      assert line + nl == nl && line + cut == cut;
    } else {
      var rest := line[1..];
      LineInFront(rest, nl, cut);
      MarkStays(line[0], rest, nl);
      FirstOff(line, rest, nl);
      FirstOff(line, rest, cut);
    }
  }

  lemma {:induction false} MarkStays(c: char, rest: string, nl: string)
    requires nl != "" && (c != '\r' || (if rest == "" then nl[0] else rest[0]) != '\n')
    ensures StripCR([c] + (rest + nl)) == [c] + StripCR(rest + nl)
  {
    assert ([c] + (rest + nl))[1..] == rest + nl;
    assert (rest + nl)[0] == if rest == "" then nl[0] else rest[0];
  }

  lemma FirstOff(line: string, rest: string, tail: string)
    requires line != "" && rest == line[1..]
    ensures line + tail == [line[0]] + (rest + tail)
  {
  }

  lemma {:induction false} NoBreakStays(line: string)
    requires '\n' !in line
    ensures StripCR(line) == line
  {
    if |line| >= 2 {
      NoBreakStays(line[1..]);
      assert [line[0]] + line[1..] == line;
    }
  }

  lemma {:induction false} BreakIsCut(sep: string, rest: string, nl: string)
    requires nl == sep + rest && (sep == "\n" || sep == "\r\n")
    ensures StripCR(nl) == "\n" + StripCR(rest)
  {
    assert nl[|sep|..] == rest;
  }

  predicate WholeLines(lines: seq<string>) {
    forall i :: 0 <= i < |lines| ==> '\n' !in lines[i] && '\r' !in lines[i]
  }

  lemma {:induction false} LinesAreCut(lines: seq<string>, sep: string)
    requires WholeLines(lines) && (sep == "\n" || sep == "\r\n")
    ensures StripCR(Join(lines, sep)) == Join(lines, "\n")
  {
    if |lines| == 1 {
      NoBreakStays(lines[0]);
    } else if |lines| > 1 {
      var rest := Join(lines[1..], sep);
      LinesAreCut(lines[1..], sep);
      BreakIsCut(sep, rest, sep + rest);
      LineInFront(lines[0], sep + rest, "\n" + Join(lines[1..], "\n"));
      Regroup(lines[0], sep, rest);
      Regroup(lines[0], "\n", Join(lines[1..], "\n"));
    }
  }

  lemma Regroup(a: string, b: string, c: string)
    ensures a + (b + c) == a + b + c
  {
  }

  /** A text with Windows line ends gives the same configuration as with others. */
  lemma {:induction false} LineEndsDoNotMatter(lines: seq<string>, key: string)
    requires WholeLines(lines)
    ensures InjectKey(Join(lines, "\r\n"), key) == InjectKey(Join(lines, "\n"), key)
  {
    LinesAreCut(lines, "\r\n");
    LinesAreCut(lines, "\n");
  }

  /** What a candidate names, if anything: its endpoint, or else its address and port. */
  predicate Names(c: Candidate, endpoint: string) {
    && endpoint != ""
    && (endpoint == Trim(c.endpoint)
        || (Trim(c.endpoint) == "" && c.ip != "" && 1 <= c.port && endpoint == c.ip + ":" + Itoa(c.port)))
  }

  lemma {:induction false} ResolvedIff(cs: seq<Candidate>, endpoint: string)
    requires endpoint != ""
    ensures endpoint in ResolveAll(cs) <==> exists i :: 0 <= i < |cs| && Names(cs[i], endpoint)
  {
    if cs != [] {
      ResolvedIff(cs[1..], endpoint);
      ResolvedFirst(cs, endpoint);
    }
  }

  lemma ResolvedFirst(cs: seq<Candidate>, endpoint: string)
    requires cs != [] && endpoint != ""
    ensures (exists i :: 0 <= i < |cs| && Names(cs[i], endpoint)) <==>
            endpoint == Resolve(cs[0]) || exists i :: 0 <= i < |cs[1..]| && Names(cs[1..][i], endpoint)
  {
    if i :| 0 <= i < |cs| && Names(cs[i], endpoint) {
      assert i > 0 ==> Names(cs[1..][i - 1], endpoint);
    }
    if i :| 0 <= i < |cs[1..]| && Names(cs[1..][i], endpoint) {
      assert Names(cs[i + 1], endpoint);
    }
    assert endpoint == Resolve(cs[0]) <==> Names(cs[0], endpoint);
  }

  /** The client tries exactly the endpoints its candidates name, each once. */
  lemma {:induction false} EndpointsIff(cs: seq<Candidate>, endpoint: string)
    ensures endpoint in Endpoints(cs) <==> exists i :: 0 <= i < |cs| && Names(cs[i], endpoint)
    ensures forall i, j :: 0 <= i < j < |Endpoints(cs)| ==> Endpoints(cs)[i] != Endpoints(cs)[j]
  {
    FirstsAreDistinct({""}, ResolveAll(cs));
    FirstsMembers({""}, ResolveAll(cs), endpoint);
    if endpoint != "" {
      ResolvedIff(cs, endpoint);
    }
  }

  // ---- Which lines the client touches -----------------------------------------------------

  lemma EntryFirst(key: Key, v: string, line: string)
    requires key != OtherKey && line == EntryLine(key, v)
    ensures var t := Lower(Trim(line)); t != "" && t[0] == LowerChar(NameOf(key)[0])
  {
    NamesArePlain(key);
    assert line[0] == NameOf(key)[0];
    TrimKeepsFirst(line);
  }

  lemma NotEndpointByFirst(line: string, t: string)
    requires t == Lower(Trim(line)) && t != "" && t[0] != 'e'
    ensures !IsEndpointLine(line)
  {
  }

  lemma EntryIsNeither(key: Key, v: string, line: string)
    requires key != OtherKey && line == EntryLine(key, v)
    ensures !IsInterfaceLine(line) && (key != Endpoint ==> !IsEndpointLine(line))
  {
    EntryFirst(key, v, line);
    if key != Endpoint {
      NotEndpointByFirst(line, Lower(Trim(line)));
    }
  }

  lemma EndpointIsEndpoint(v: string, line: string)
    requires line == EntryLine(Endpoint, v)
    ensures IsEndpointLine(line)
  {
    NamesArePlain(Endpoint);
    StartsWithName(NameOf(Endpoint), v, line);
    EndpointPrefix(NameOf(Endpoint), Trim(line));
  }

  lemma StartsWithName(name: string, v: string, line: string)
    requires PlainName(name) && line == name + " = " + v
    ensures |name| <= |Trim(line)| && Trim(line)[..|name|] == name
  {
    var head := name + " =";
    EntryHead(name, v, line, head);
    var val := TrimTail(head, " " + v);
    assert (head + val)[..|name|] == name;
  }

  lemma {:induction false} EndpointPrefix(name: string, t: string)
    requires name == NameOf(Endpoint) && |name| <= |t| && t[..|name|] == name
    ensures StartsWith(Lower(t), "endpoint")
  {
    LowerPrefix(name, t, "endpoint");
  }

  lemma {:induction false} LowerPrefix(name: string, t: string, low: string)
    requires |name| == |low| && |name| <= |t| && t[..|name|] == name
    requires forall i :: 0 <= i < |name| ==> LowerChar(name[i]) == low[i]
    ensures StartsWith(Lower(t), low)
  {
    assert forall i :: 0 <= i < |name| ==> Lower(t)[i] == LowerChar(t[i]) && t[i] == name[i];
  }

  lemma {:induction false} LowerTop(line: string, low: string)
    requires line == "[Interface]" && low == "[interface]"
    ensures Trimmed(line) && Lower(line) == low && low != "" && low[0] == '['
  {
    LowerIs(line, low);
  }

  lemma TopIsInterface(line: string, low: string)
    requires line == "[Interface]" && low == "[interface]"
    ensures IsInterfaceLine(line) && !IsEndpointLine(line)
  {
    LowerTop(line, low);
  }

  ghost predicate Plain(lines: seq<string>) {
    NoMatch(IsInterfaceLine, lines) && NoMatch(IsEndpointLine, lines)
  }

  lemma PlainConcat(a: seq<string>, b: seq<string>)
    requires Plain(a) && Plain(b)
    ensures Plain(a + b)
  {
  }

  lemma PlainEntry(key: Key, v: string)
    requires key != OtherKey && key != Endpoint
    ensures Plain([EntryLine(key, v)])
  {
    EntryIsNeither(key, v, EntryLine(key, v));
  }

  lemma PlainDNS(dns: string)
    ensures Plain(DNSLine(dns))
  {
    PlainEntry(DNS, dns);
  }

  lemma PlainPeerHead(blank: string, head: string)
    requires blank == "" && head == "[Peer]"
    ensures Plain([blank, head])
  {
    NoMatchPair(IsInterfaceLine, blank, head);
    NoMatchPair(IsEndpointLine, blank, head);
  }

  lemma PlainPair(key: Key, v: string, other: Key, w: string)
    requires key != OtherKey && key != Endpoint && other != OtherKey && other != Endpoint
    ensures Plain([EntryLine(key, v), EntryLine(other, w)])
  {
    EntryIsNeither(key, v, EntryLine(key, v));
    EntryIsNeither(other, w, EntryLine(other, w));
    NoMatchPair(IsInterfaceLine, EntryLine(key, v), EntryLine(other, w));
    NoMatchPair(IsEndpointLine, EntryLine(key, v), EntryLine(other, w));
  }

  lemma PlainBefore(s: Session)
    ensures Plain(BeforeEndpoint(s))
  {
    var a, d, p, k := [EntryLine(Address, s.ip + "/32")], DNSLine(s.dns), ["", "[Peer]"],
                      [EntryLine(PublicKey, s.serverKey), EntryLine(PresharedKey, s.psk)];
    PlainEntry(Address, s.ip + "/32");
    PlainDNS(s.dns);
    PlainPeerHead("", "[Peer]");
    PlainPair(PublicKey, s.serverKey, PresharedKey, s.psk);
    PlainConcat(a, d);
    PlainConcat(a + d, p);
    PlainConcat(a + d + p, k);
  }

  lemma PlainAfter(s: Session)
    ensures Plain(AfterEndpoint(s))
  {
    PlainPair(AllowedIPs, s.allowed, PersistentKeepalive, Itoa(25));
  }

  // ---- The edits on the lines -------------------------------------------------------------

  /** The lines the client hands to the tunnel. */
  function FinalLinesOf(top: string, key: string, before: seq<string>, endpoint: string,
      after: seq<string>): seq<string> {
    [top, EntryLine(PrivateKey, key)] + before + [EntryLine(Endpoint, endpoint)] + after
  }

  lemma InjectedLines(top: string, before: seq<string>, endpoint: string, after: seq<string>, key: string,
      blank: string)
    requires Plain(before) && Plain(after) && IsInterfaceLine(top) && blank == ""
    ensures InsertAfter(IsInterfaceLine, EntryLine(PrivateKey, key), LinesOf(top, before, endpoint, after) + [blank]) ==
            FinalLinesOf(top, key, before, endpoint, after) + [blank]
  {
    var x := EntryLine(Endpoint, endpoint);
    EntryIsNeither(Endpoint, endpoint, x);
    InsertBelowTop(IsInterfaceLine, EntryLine(PrivateKey, key), top, before, x, after, blank);
  }

  lemma ReplacedLines(top: string, key: string, before: seq<string>, endpoint: string, after: seq<string>,
      other: string, blank: string)
    requires Plain(before) && Plain(after) && !IsEndpointLine(top)
    ensures ReplaceFirst(IsEndpointLine, EntryLine(Endpoint, other),
            FinalLinesOf(top, key, before, endpoint, after) + [blank]) ==
            FinalLinesOf(top, key, before, other, after) + [blank]
  {
    var pk, x := EntryLine(PrivateKey, key), EntryLine(Endpoint, endpoint);
    EntryIsNeither(PrivateKey, key, pk);
    EndpointIsEndpoint(endpoint, x);
    ReplaceBelowTop(IsEndpointLine, EntryLine(Endpoint, other), top, pk, before, x, after, blank);
  }

  // ---- The edits on the text --------------------------------------------------------------

  predicate Bare(v: string) {
    '\n' !in v && '\r' !in v
  }

  predicate BareLines(lines: seq<string>) {
    forall i :: 0 <= i < |lines| ==> Bare(lines[i])
  }

  lemma {:induction false} StripNothing(s: string)
    requires '\r' !in s
    ensures StripCR(s) == s
  {
    if |s| >= 2 {
      StripNothing(s[1..]);
    }
  }

  lemma {:induction false} TextIsBare(lines: seq<string>)
    requires BareLines(lines)
    ensures '\r' !in TextOf(lines)
  {
    if lines != [] {
      TextIsBare(lines[1..]);
    }
  }

  lemma {:induction false} JoinLines(lines: seq<string>, blank: string)
    requires blank == ""
    ensures Join(lines + [blank], "\n") == TextOf(lines)
  {
    if lines != [] {
      JoinLines(lines[1..], blank);
      assert (lines + [blank])[1..] == lines[1..] + [blank];
    }
  }

  /** Splitting, editing and joining a text is editing its lines. */
  lemma {:induction false} InjectedText(lines: seq<string>, final: seq<string>, key: string, blank: string)
    requires BareLines(lines) && blank == ""
    requires InsertAfter(IsInterfaceLine, EntryLine(PrivateKey, key), lines + [blank]) == final + [blank]
    ensures InjectKey(TextOf(lines), key) == TextOf(final)
  {
    TextIsBare(lines);
    StripNothing(TextOf(lines));
    LinesOfText(lines);
    JoinLines(final, blank);
  }

  lemma {:induction false} ReplacedText(lines: seq<string>, final: seq<string>, endpoint: string, blank: string)
    requires BareLines(lines) && blank == ""
    requires ReplaceFirst(IsEndpointLine, EntryLine(Endpoint, endpoint), lines + [blank]) == final + [blank]
    ensures ReplaceEndpoint(TextOf(lines), endpoint) == TextOf(final)
  {
    LinesOfText(lines);
    JoinLines(final, blank);
  }

  lemma NamesAreBare(key: Key)
    ensures Bare(NameOf(key))
  {
  }

  lemma BareEntry(key: Key, v: string)
    requires Bare(v)
    ensures Bare(EntryLine(key, v))
  {
    NamesAreBare(key);
  }

  lemma BareFinal(top: string, key: string, before: seq<string>, endpoint: string, after: seq<string>)
    requires Bare(top) && Bare(key) && BareLines(before) && Bare(endpoint) && BareLines(after)
    ensures BareLines(LinesOf(top, before, endpoint, after))
            && BareLines(FinalLinesOf(top, key, before, endpoint, after))
  {
    BareEntry(PrivateKey, key);
    BareEntry(Endpoint, endpoint);
  }

  lemma ClientText(top: string, before: seq<string>, endpoint: string, after: seq<string>, key: string, other: string)
    requires Plain(before) && Plain(after) && IsInterfaceLine(top) && !IsEndpointLine(top)
    requires Bare(top) && Bare(key) && BareLines(before) && Bare(endpoint) && BareLines(after)
    ensures ReplaceEndpoint(InjectKey(TextOf(LinesOf(top, before, endpoint, after)), key), other) ==
            TextOf(FinalLinesOf(top, key, before, other, after))
  {
    BareFinal(top, key, before, endpoint, after);
    InjectedLines(top, before, endpoint, after, key, "");
    InjectedText(LinesOf(top, before, endpoint, after), FinalLinesOf(top, key, before, endpoint, after), key, "");
    ReplacedLines(top, key, before, endpoint, after, other, "");
    ReplacedText(FinalLinesOf(top, key, before, endpoint, after), FinalLinesOf(top, key, before, other, after), other,
      "");
  }

  // ---- The session's config, end to end -----------------------------------------------------

  predicate BareSession(s: Session) {
    Bare(s.ip) && Bare(s.dns) && Bare(s.serverKey) && Bare(s.psk) && Bare(s.endpoint) && Bare(s.allowed)
  }

  lemma BareBefore(s: Session, blank: string, head: string)
    requires BareSession(s) && blank == "" && head == "[Peer]"
    ensures BareLines(BeforeEndpoint(s))
  {
    assert Bare(s.ip + "/32");
    BareEntry(Address, s.ip + "/32");
    BareEntry(DNS, s.dns);
    assert Bare(blank) && Bare(head);
    BareEntry(PublicKey, s.serverKey);
    BareEntry(PresharedKey, s.psk);
  }

  lemma BareAfter(s: Session, n: string)
    requires BareSession(s) && n == Itoa(25)
    ensures BareLines(AfterEndpoint(s))
  {
    assert forall i :: 0 <= i < |n| ==> IsDigit(n[i]);
    BareEntry(AllowedIPs, s.allowed);
    BareEntry(PersistentKeepalive, n);
  }

  /** The config the client ends up with. */
  function SessionConfigOf(s: Session, items: seq<string>, key: string, endpoint: string): Config {
    Config(Interface(key, [s.ip + "/32"], if s.dns != "" then [s.dns] else [], 0, 0),
           [Peer(s.serverKey, s.psk, items, endpoint, 25)])
  }

  lemma PeerLinesOf(p: Peer)
    requires p.publicKey != "" && p.presharedKey != "" && p.endpoint != "" && p.allowedIPs != [] && p.keepalive == 25
    ensures PeerLines(p) ==
            [EntryLine(PublicKey, p.publicKey), EntryLine(PresharedKey, p.presharedKey)]
            + [EntryLine(Endpoint, p.endpoint)]
            + [EntryLine(AllowedIPs, Join(p.allowedIPs, ", ")), EntryLine(PersistentKeepalive, Itoa(25))]
  {
  }

  lemma RegroupLines(top: seq<string>, pk: seq<string>, addr: seq<string>, dns: seq<string>, head: seq<string>,
      keys: seq<string>, ep: seq<string>, tail: seq<string>)
    ensures top + (pk + addr + dns) + (head + (keys + ep + tail) + [])
            == (top + pk) + (addr + dns + head + keys) + ep + tail
  {
  }

  lemma {:induction false} FinalIsFormat(s: Session, items: seq<string>, key: string, endpoint: string, top: string)
    requires top == "[Interface]" && key != "" && s.serverKey != "" && s.psk != "" && endpoint != ""
    requires items != [] && s.allowed == Join(items, ", ")
    ensures FinalLinesOf(top, key, BeforeEndpoint(s), endpoint, AfterEndpoint(s))
            == FormatLines(SessionConfigOf(s, items, key, endpoint))
  {
    var c := SessionConfigOf(s, items, key, endpoint);
    PeerLinesOf(c.peers[0]);
    assert c.peers[1..] == [];
    assert PeersLines(c.peers) == ["", "[Peer]"] + PeerLines(c.peers[0]) + [];
    RegroupLines([top], [EntryLine(PrivateKey, key)], [EntryLine(Address, s.ip + "/32")], DNSLine(s.dns),
                 ["", "[Peer]"], [EntryLine(PublicKey, s.serverKey), EntryLine(PresharedKey, s.psk)],
                 [EntryLine(Endpoint, endpoint)], AfterEndpoint(s));
    assert [top] + [EntryLine(PrivateKey, key)] == [top, EntryLine(PrivateKey, key)];
  }

  /** What the client makes of the server's text is a written config. */
  lemma {:induction false} ClientTextIsFormat(s: Session, items: seq<string>, key: string, endpoint: string)
    requires BareSession(s) && Bare(key) && key != "" && s.serverKey != "" && s.psk != "" && endpoint != ""
    requires items != [] && s.allowed == Join(items, ", ")
    ensures ReplaceEndpoint(InjectKey(SessionText(s), key), endpoint)
            == Format(SessionConfigOf(s, items, key, endpoint))
  {
    var top := "[Interface]";
    TopIsInterface(top, "[interface]");
    TopBare(top);
    PlainBefore(s);
    PlainAfter(s);
    BareBefore(s, "", "[Peer]");
    BareAfter(s, Itoa(25));
    ClientText(top, BeforeEndpoint(s), s.endpoint, AfterEndpoint(s), key, endpoint);
    FinalIsFormat(s, items, key, endpoint, top);
  }

  lemma TopBare(top: string)
    requires top == "[Interface]"
    ensures Bare(top)
  {
  }

  /** The values of a session read back as they are. */
  predicate CleanSession(s: Session, items: seq<string>) {
    CleanValue(s.serverKey) && CleanValue(s.psk) && SoundItem(s.ip + "/32") && CleanItems(items)
  }

  lemma {:induction false} OnePeerReadsBack(p: Peer, ps: seq<Peer>)
    requires CleanPeer(p) && ps == [p]
    ensures ReadBackPeers(ps) == ps
  {
    PeersReadBackIff(ps);
  }

  lemma AddressReadsBack(address: string)
    requires SoundItem(address)
    ensures ReadItems([address]) == [address]
  {
    ListReadsBackIff([address]);
  }

  lemma InterfaceReadsBack(key: string, address: string, dns: seq<string>)
    requires CleanValue(key) && SoundItem(address)
    ensures ReadBackInterface(Interface(key, [address], dns, 0, 0)) == Interface(key, [address], ReadItems(dns), 0, 0)
  {
    ReadClean(key);
    AddressReadsBack(address);
  }

  /**
   * End to end: parsing what the client makes of the server's text gives its own key, the assigned address, the
   * server's key and preshared key, the chosen endpoint, keepalive 25, and the subnet followed by the distinct resource
   * networks.
   */
  lemma SessionConfigEndToEnd(s: Session, subnet: string, cidrs: seq<string>, key: string, endpoint: string)
    requires s.allowed == Join(AllowedItems(subnet, cidrs), ", ")
    requires BareSession(s) && Bare(key) && Bare(endpoint) && NoNewlines(AllowedItems(subnet, cidrs))
    requires CleanSession(s, AllowedItems(subnet, cidrs)) && CleanValue(key) && CleanValue(endpoint)
    requires key != "" && s.serverKey != "" && s.psk != "" && endpoint != ""
    ensures Parse(ReplaceEndpoint(InjectKey(SessionText(s), key), endpoint)) ==
            Some(Config(Interface(key, [s.ip + "/32"], if s.dns == "" then [] else ReadList(ReadValue(s.dns)),
                                  1420, 0),
                        [Peer(s.serverKey, s.psk, AllowedItems(subnet, cidrs), endpoint, 25)]))
  {
    var items := AllowedItems(subnet, cidrs);
    var c := SessionConfigOf(s, items, key, endpoint);
    ClientTextIsFormat(s, items, key, endpoint);
    SessionIsOneLine(s, items, key, endpoint);
    FormatReads(c);
    OnePeerReadsBack(c.peers[0], c.peers);
    InterfaceReadsBack(key, s.ip + "/32", c.interface.dns);
  }

  lemma SessionIsOneLine(s: Session, items: seq<string>, key: string, endpoint: string)
    requires BareSession(s) && Bare(key) && Bare(endpoint) && NoNewlines(items)
    ensures OneLine(SessionConfigOf(s, items, key, endpoint))
  {
    assert '\n' !in s.ip + "/32";
  }
}
