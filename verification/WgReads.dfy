/** What every config that comes out of the parser is like. */
module WgReads {
  import opened Options
  import opened Text
  import opened WgLines
  import opened WgLineText
  import opened WgConfig
  import opened WgLists

  // ---- Values on one line --------------------------------------------------------------

  predicate OneLineInterface(f: Interface) {
    '\n' !in f.privateKey && NoNewlines(f.addresses) && NoNewlines(f.dns)
  }

  predicate OneLinePeer(p: Peer) {
    '\n' !in p.publicKey && '\n' !in p.presharedKey && '\n' !in p.endpoint && NoNewlines(p.allowedIPs)
  }

  /** No value spans lines. */
  predicate OneLine(c: Config) {
    OneLineInterface(c.interface) && forall i :: 0 <= i < |c.peers| ==> OneLinePeer(c.peers[i])
  }

  // ---- Values the parser makes ------------------------------------------------------------

  predicate SoundInterface(f: Interface) {
    CleanValue(f.privateKey) && SoundItems(f.addresses) && SoundItems(f.dns)
  }

  predicate SoundPeer(p: Peer) {
    CleanValue(p.publicKey) && CleanValue(p.presharedKey) && CleanValue(p.endpoint) && SoundItems(p.allowedIPs)
  }

  predicate GoodInterface(f: Interface) {
    OneLineInterface(f) && SoundInterface(f)
  }

  predicate GoodPeer(p: Peer) {
    OneLinePeer(p) && SoundPeer(p)
  }

  predicate GoodPeers(peers: seq<Peer>) {
    forall i :: 0 <= i < |peers| ==> GoodPeer(peers[i])
  }

  predicate GoodLine(l: Line) {
    l.Entry? ==> CleanValue(l.val) && '\n' !in l.val
  }

  predicate GoodLines(lines: seq<Line>) {
    forall i :: 0 <= i < |lines| ==> GoodLine(lines[i])
  }

  predicate GoodReader(r: Reader) {
    GoodInterface(r.interface) && GoodPeers(r.peers) && (r.current.Some? ==> GoodPeer(r.current.value))
  }

  lemma TrimOneLine(v: string)
    requires '\n' !in v
    ensures '\n' !in Trim(v)
  {
    var a, b := TrimParts(v);
    assert forall c :: c in Trim(v) ==> c in a + Trim(v) + b;
  }

  lemma ReadOneLine(v: string)
    requires '\n' !in v
    ensures '\n' !in ReadValue(v)
  {
    var t := Trim(v);
    TrimOneLine(v);
    if MarkAt(t) < |t| {
      TrimOneLine(t[..MarkAt(t)]);
    }
  }

  lemma EntryIsGood(t: string, i: nat)
    requires '\n' !in t && i <= |t|
    ensures GoodLine(EntryAt(t, i))
  {
    if i < |t| {
      ReadOneLine(t[i + 1..]);
      ReadIsClean(t[i + 1..]);
    }
  }

  lemma LineIsGood(raw: string)
    requires '\n' !in raw
    ensures GoodLine(Classify(raw))
  {
    TrimOneLine(raw);
    EntryIsGood(Trim(raw), Find(Trim(raw), '='));
  }

  lemma {:induction false} LineAtIsGood(lines: seq<string>, i: nat)
    requires i < |lines| && '\n' !in lines[i]
    ensures GoodLine(Parsed(lines)[i])
  {
    if i == 0 {
      LineIsGood(lines[0]);
    } else {
      LineAtIsGood(lines[1..], i - 1);
    }
  }

  lemma {:induction false} LinesAreGood(lines: seq<string>)
    requires forall i :: 0 <= i < |lines| ==> '\n' !in lines[i]
    ensures GoodLines(Parsed(lines))
  {
    forall i | 0 <= i < |lines| ensures GoodLine(Parsed(lines)[i]) {
      LineAtIsGood(lines, i);
    }
  }

  lemma {:induction false} SplitOneLine(v: string)
    requires '\n' !in v
    ensures NoNewlines(Split(v, ','))
  {
    if v != "" {
      SplitOneLine(v[1..]);
    }
  }

  lemma {:induction false} ItemsOneLine(parts: seq<string>)
    requires NoNewlines(parts)
    ensures NoNewlines(Items(parts))
  {
    if parts != [] {
      var rest := Items(parts[1..]);
      ItemsOneLine(parts[1..]);
      TrimOneLine(parts[0]);
      assert [] + rest == rest;
    }
  }

  predicate GoodItems(items: seq<string>) {
    SoundItems(items) && NoNewlines(items)
  }

  lemma ListIsGood(v: string)
    requires CleanValue(v) && '\n' !in v
    ensures GoodItems(ReadList(v))
  {
    PartsUnmarked(v);
    ItemsAreSound(Split(v, ','));
    SplitOneLine(v);
    ItemsOneLine(Split(v, ','));
  }

  lemma SetInterfaceIsGood(f: Interface, key: Key, v: string)
    requires GoodInterface(f) && CleanValue(v) && '\n' !in v
    ensures GoodInterface(SetInterface(f, key, v))
  {
    ListIsGood(v);
  }

  lemma SetPeerIsGood(p: Peer, key: Key, v: string)
    requires GoodPeer(p) && CleanValue(v) && '\n' !in v
    ensures GoodPeer(SetPeer(p, key, v))
  {
    ListIsGood(v);
  }

  lemma FeedIsGood(r: Reader, l: Line)
    requires GoodReader(r) && GoodLine(l)
    ensures Feed(r, l).Some? ==> GoodReader(Feed(r, l).value)
  {
    match l
    case Entry(key, v) =>
      SetInterfaceIsGood(r.interface, key, v);
      SetPeerIsGood(r.current.GetOr(NO_PEER), key, v);
    case _ =>
  }

  lemma {:induction false} FeedAllIsGood(r: Reader, lines: seq<Line>)
    requires GoodReader(r) && GoodLines(lines)
    ensures FeedAll(r, lines).Some? ==> GoodReader(FeedAll(r, lines).value)
    decreases |lines|
  {
    if lines != [] {
      FeedIsGood(r, lines[0]);
      if Feed(r, lines[0]).Some? {
        FeedAllIsGood(Feed(r, lines[0]).value, lines[1..]);
      }
    }
  }

  /** Values that were read are clean, their list items are sound, and none spans lines. */
  lemma ParseIsGood(text: string)
    requires Parse(text).Some?
    ensures var c := Parse(text).value; GoodInterface(c.interface) && GoodPeers(c.peers) && OneLine(c)
  {
    var lines := Split(text, '\n');
    LinesAreGood(lines);
    FeedAllIsGood(START, Parsed(lines));
  }
}
