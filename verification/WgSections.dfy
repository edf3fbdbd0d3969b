/** Several [Peer] sections in one text, and which of them the parser keeps (client/internal/config/parser.go). */
module WgSections {
  import opened Options
  import opened Text
  import opened WgLines
  import opened WgConfig
  import opened WgLineText
  import opened WgLists
  import opened WgRoundTrip

  // ---- The reading that keeps every peer ---------------------------------------------

  /** As Feed, but any header keeps the peer read so far. */
  function FeedKeeping(r: Reader, line: Line): Option<Reader> {
    match line
    case Header(s) =>
      Some(r.(peers := WithCurrent(r), section := s, current := if s == InPeer then Some(NO_PEER) else None))
    case _ => Feed(r, line)
  }

  function FeedAllKeeping(r: Reader, lines: seq<Line>): Option<Reader>
    decreases |lines|
  {
    if lines == [] then Some(r)
    else
      var n := FeedKeeping(r, lines[0]);
      if n.None? then None else FeedAllKeeping(n.value, lines[1..])
  }

  /** A text read with all its [Peer] sections. */
  function ParseKeeping(lines: seq<Line>): Option<Config> {
    Finish(FeedAllKeeping(START, lines))
  }

  function PeerHeaders(lines: seq<Line>): nat
    decreases |lines|
  {
    if lines == [] then 0 else (if lines[0] == Header(InPeer) then 1 else 0) + PeerHeaders(lines[1..])
  }

  predicate OnlyPeerHeaders(lines: seq<Line>) {
    forall i :: 0 <= i < |lines| && lines[i].Header? ==> lines[i] == Header(InPeer)
  }

  /** No header of another section comes after a [Peer]. */
  predicate PeersLast(lines: seq<Line>) {
    forall i, j :: 0 <= i < j < |lines| && lines[i] == Header(InPeer) && lines[j].Header? ==> lines[j] == Header(InPeer)
  }

  /** Headers of other sections that end a peer's. */
  function Drops(section: Section, lines: seq<Line>): nat
    decreases |lines|
  {
    if lines == [] then 0
    else
      match lines[0]
      case Header(s) => (if section == InPeer && s != InPeer then 1 else 0) + Drops(s, lines[1..])
      case _ => Drops(section, lines[1..])
  }

  // ---- Counting the peers that are lost ---------------------------------------------------

  lemma PeersLastFirst(line: Line, rest: seq<Line>, lines: seq<Line>)
    requires lines == [line] + rest
    ensures PeersLast(lines) <==> PeersLast(rest) && (line == Header(InPeer) ==> OnlyPeerHeaders(rest))
  {
    assert lines[0] == line && forall i :: 0 <= i < |rest| ==> rest[i] == lines[i + 1];
    if PeersLast(lines) {
      forall i, j | 0 <= i < j < |rest| && rest[i] == Header(InPeer) && rest[j].Header?
        ensures rest[j] == Header(InPeer) {
        assert lines[i + 1] == rest[i] && lines[j + 1] == rest[j];
      }
      forall j | 0 <= j < |rest| && rest[j].Header? && line == Header(InPeer) ensures rest[j] == Header(InPeer) {
        assert lines[j + 1] == rest[j];
      }
    } else {
      var i, j :| 0 <= i < j < |lines| && lines[i] == Header(InPeer) && lines[j].Header? && lines[j] != Header(InPeer);
      assert rest[j - 1] == lines[j];
      assert i > 0 ==> rest[i - 1] == lines[i];
    }
  }

  lemma OnlyPeersFirst(line: Line, rest: seq<Line>, lines: seq<Line>)
    requires lines == [line] + rest
    ensures OnlyPeerHeaders(lines) <==> OnlyPeerHeaders(rest) && (line.Header? ==> line == Header(InPeer))
  {
    assert forall i :: 0 <= i < |rest| ==> rest[i] == lines[i + 1];
    if OnlyPeerHeaders(lines) {
      assert lines[0] == line;
    }
  }

  lemma {:induction false} NoDropsIff(section: Section, lines: seq<Line>)
    ensures Drops(section, lines) == 0 <==> PeersLast(lines) && (section == InPeer ==> OnlyPeerHeaders(lines))
    decreases |lines|
  {
    if lines != [] {
      var line, rest := lines[0], lines[1..];
      NoDropsIff(if line.Header? then line.section else section, rest);
      PeersLastFirst(line, rest, lines);
      OnlyPeersFirst(line, rest, lines);
    }
  }

  /** A peer is open exactly inside a peer's section. */
  predicate OpenInPeer(r: Reader) {
    r.current.Some? <==> r.section == InPeer
  }

  /** Two readers that differ in the peers they have kept. */
  predicate Alike(r: Reader, q: Reader) {
    OpenInPeer(r) && q == r.(peers := q.peers)
  }

  /** q: the reader that keeps every peer; drops: how many the other has lost. */
  predicate KeepsMore(r: Option<Reader>, q: Option<Reader>, drops: nat) {
    if r.None? then q.None?
    else q.Some? && Alike(r.value, q.value) && |q.value.peers| == |r.value.peers| + drops && (drops == 0 ==> q == r)
  }

  lemma {:induction false} KeepingRuns(r: Reader, q: Reader, drops: nat, lines: seq<Line>)
    requires KeepsMore(Some(r), Some(q), drops)
    ensures KeepsMore(FeedAll(r, lines), FeedAllKeeping(q, lines), drops + Drops(r.section, lines))
    decreases |lines|
  {
    if lines != [] {
      var n, m := Feed(r, lines[0]), FeedKeeping(q, lines[0]);
      if n.Some? {
        KeepingRuns(n.value, m.value, drops + Drops(r.section, lines) - Drops(n.value.section, lines[1..]), lines[1..]);
      }
    }
  }

  /** The reading that keeps every peer has one for each header. */
  lemma {:induction false} KeepingCounts(q: Reader, lines: seq<Line>)
    requires OpenInPeer(q)
    ensures FeedAllKeeping(q, lines).Some?
            ==> |WithCurrent(FeedAllKeeping(q, lines).value)| == |WithCurrent(q)| + PeerHeaders(lines)
    decreases |lines|
  {
    if lines != [] {
      var m := FeedKeeping(q, lines[0]);
      if m.Some? {
        KeepingCounts(m.value, lines[1..]);
      }
    }
  }

  lemma {:induction false} KeptFrom(start: Reader, lines: seq<Line>, c: Config)
    requires OpenInPeer(start) && KeepsMore(Some(start), Some(start), 0) && |WithCurrent(start)| == 0
             && start.section != InPeer
    requires Finish(FeedAll(start, lines)) == Some(c)
    ensures |c.peers| + Drops(start.section, lines) == PeerHeaders(lines)
    ensures |c.peers| == PeerHeaders(lines) <==> PeersLast(lines)
    ensures Finish(FeedAllKeeping(start, lines)) == Some(c) <==> PeersLast(lines)
  {
    KeepingRuns(start, start, 0, lines);
    KeepingCounts(start, lines);
    NoDropsIff(start.section, lines);
  }

  /**
   * A text that parses keeps as many peers as it has [Peer] headers, and reads as with all of them, exactly when no
   * header of another section comes after a [Peer].
   */
  lemma {:induction false} PeersKeptIff(text: string, lines: seq<Line>, c: Config)
    requires lines == Parsed(Split(text, '\n')) && Parse(text) == Some(c)
    ensures |c.peers| + Drops(Top, lines) == PeerHeaders(lines)
    ensures |c.peers| == PeerHeaders(lines) <==> PeersLast(lines)
    ensures ParseKeeping(lines) == Some(c) <==> PeersLast(lines)
  {
    KeptFrom(START, lines, c);
  }

  // ---- A text that loses its peer -----------------------------------------------------------

  lemma {:induction false} FeedTwo(r: Reader, a: Line, ra: Reader, b: Line, rb: Reader)
    requires Feed(r, a) == Some(ra) && Feed(ra, b) == Some(rb)
    ensures FeedAll(r, [a] + [b]) == Some(rb)
  {
    FeedOne(ra, b);
  }

  /** The five lines of the witness: a complete interface, a peer, and the interface's header again. */
  function Witness(key: string, address: string): seq<Line> {
    [Header(InInterface)] + [Entry(PrivateKey, key)] + [Entry(Address, address)] + [Header(InPeer)]
      + [Header(InInterface)]
  }

  lemma FeedEntries(key: string, address: string, f: Interface)
    requires SoundItem(address) && f == Interface(key, [address], [], 0, 0)
    ensures FeedAll(InSection(NO_INTERFACE), [Entry(PrivateKey, key)] + [Entry(Address, address)]) == Some(InSection(f))
  {
    var keyed := NO_INTERFACE.(privateKey := key);
    ReadSingle(address);
    AppendToNone(keyed.addresses, [address]);
    FeedTwo(InSection(NO_INTERFACE), Entry(PrivateKey, key), InSection(keyed), Entry(Address, address), InSection(f));
  }

  lemma FeedHeaders(f: Interface, lost: Reader)
    requires lost == Reader(f, [], InInterface, None)
    ensures FeedAll(InSection(f), [Header(InPeer)] + [Header(InInterface)]) == Some(lost)
  {
    FeedTwo(InSection(f), Header(InPeer), Reader(f, [], InPeer, Some(NO_PEER)), Header(InInterface), lost);
  }

  lemma Regroup5(a: seq<Line>, b: seq<Line>, c: seq<Line>, d: seq<Line>, e: seq<Line>)
    ensures a + b + c + d + e == a + (b + c) + (d + e)
  {
  }

  lemma WitnessReads(key: string, address: string, f: Interface, lost: Reader)
    requires SoundItem(address) && f == Interface(key, [address], [], 0, 0) && lost == Reader(f, [], InInterface, None)
    ensures FeedAll(START, Witness(key, address)) == Some(lost)
  {
    FeedEntries(key, address, f);
    FeedHeaders(f, lost);
    Feed3(START, [Header(InInterface)], InSection(NO_INTERFACE),
          [Entry(PrivateKey, key)] + [Entry(Address, address)], InSection(f), [Header(InPeer)] + [Header(InInterface)]);
    Regroup5([Header(InInterface)], [Entry(PrivateKey, key)], [Entry(Address, address)], [Header(InPeer)],
      [Header(InInterface)]);
  }

  lemma WitnessWritten(top: string, peer: string, key: string, address: string)
    requires top == "[Interface]" && peer == "[Peer]" && CleanValue(key) && '\n' !in key && SoundItem(address)
             && '\n' !in address
    ensures WrittenAs([top] + [EntryLine(PrivateKey, key)] + [EntryLine(Address, address)] + [peer] + [top],
            Witness(key, address))
  {
    TopWritten(top);
    PeerTopWritten(peer);
    ReadClean(key);
    ReadClean(address);
    WriteEntry(PrivateKey, key);
    WriteEntry(Address, address);
    Written5([top], [EntryLine(PrivateKey, key)], [EntryLine(Address, address)], [peer], [top],
             [Header(InInterface)], [Entry(PrivateKey, key)], [Entry(Address, address)],
             [Header(InPeer)], [Header(InInterface)]);
  }

  lemma {:induction false} ParsedText(lines: seq<string>, entries: seq<Line>)
    requires WrittenAs(lines, entries)
    ensures Parsed(Split(TextOf(lines), '\n')) == entries + [Blank]
  {
    LinesOfText(lines);
    ParsedConcat(lines, [""]);
    ParsedOne("");
  }

  lemma {:induction false} TrailingBlank(entries: seq<Line>, r: Reader)
    requires FeedAll(START, entries) == Some(r)
    ensures ParseLines(entries + [Blank]) == Finish(Some(r))
  {
    Feed2(START, entries, [Blank], r);
    FeedOne(r, Blank);
  }

  lemma {:induction false} PeerHeadersConcat(a: seq<Line>, b: seq<Line>)
    ensures PeerHeaders(a + b) == PeerHeaders(a) + PeerHeaders(b)
    decreases |a|
  {
    if a == [] {
      assert a + b == b;
    } else {
      assert (a + b)[1..] == a[1..] + b;
      PeerHeadersConcat(a[1..], b);
    }
  }

  lemma OneHeader(line: Line)
    ensures PeerHeaders([line]) == if line == Header(InPeer) then 1 else 0
  {
    assert [line][1..] == [];
  }

  lemma CountSix(a: Line, b: Line, c: Line, d: Line, e: Line, f: Line)
    requires a != Header(InPeer) && b != Header(InPeer) && c != Header(InPeer) && e != Header(InPeer)
             && f != Header(InPeer)
    requires d == Header(InPeer)
    ensures PeerHeaders([a] + [b] + [c] + [d] + [e] + [f]) == 1
  {
    OneHeader(a);
    OneHeader(b);
    OneHeader(c);
    OneHeader(d);
    OneHeader(e);
    OneHeader(f);
    PeerHeadersConcat([a], [b]);
    PeerHeadersConcat([a] + [b], [c]);
    PeerHeadersConcat([a] + [b] + [c], [d]);
    PeerHeadersConcat([a] + [b] + [c] + [d], [e]);
    PeerHeadersConcat([a] + [b] + [c] + [d] + [e], [f]);
  }

  lemma {:induction false} WitnessParses(lines: seq<Line>, key: string, address: string)
    requires lines == Witness(key, address) + [Blank] && key != "" && SoundItem(address)
    ensures ParseLines(lines) == Some(Config(Interface(key, [address], [], 1420, 0), []))
            && PeerHeaders(lines) == 1
  {
    var f := Interface(key, [address], [], 0, 0);
    var lost := Reader(f, [], InInterface, None);
    assert ParseLines(lines) == Finish(Some(lost)) by {
      WitnessReads(key, address, f, lost);
      TrailingBlank(Witness(key, address), lost);
    }
    CountSix(Header(InInterface), Entry(PrivateKey, key), Entry(Address, address), Header(InPeer), Header(InInterface),
      Blank);
  }

  /** A second [Interface] header after the only [Peer]: the text parses, and has no peer. */
  lemma {:induction false} SecondInterfaceLosesPeer(top: string, peer: string, key: string, address: string,
      written: seq<string>)
    requires top == "[Interface]" && peer == "[Peer]"
    requires key != "" && CleanValue(key) && '\n' !in key && SoundItem(address) && '\n' !in address
    requires written == [top] + [EntryLine(PrivateKey, key)] + [EntryLine(Address, address)] + [peer] + [top]
    ensures Parse(TextOf(written)) == Some(Config(Interface(key, [address], [], 1420, 0), []))
    ensures PeerHeaders(Parsed(Split(TextOf(written), '\n'))) == 1
  {
    WitnessWritten(top, peer, key, address);
    ParsedText(written, Witness(key, address));
    WitnessParses(Parsed(Split(TextOf(written), '\n')), key, address);
  }
}
