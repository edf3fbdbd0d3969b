/** What single lines of a configuration text mean to the parser (client/internal/config/parser.go). */
module WgTexts {
  import opened Options
  import opened Text
  import opened WgLines
  import opened WgLineText
  import opened WgConfig
  import opened WgLists
  import opened WgRoundTrip
  import opened WgSections

  // ---- Lines in their places ------------------------------------------------------------

  /** Some lines between others. */
  predicate Places(text: string, a: seq<string>, x: seq<string>, b: seq<string>) {
    a + x + b != [] && NoNewlines(a + x + b) && text == Join(a + x + b, "\n")
  }

  lemma {:induction false} PlacedParse(text: string, a: seq<string>, x: seq<string>, b: seq<string>)
    requires Places(text, a, x, b)
    ensures Parse(text) == ParseLines(Parsed(a) + Parsed(x) + Parsed(b))
  {
    SplitJoin(a + x + b, '\n');
    assert ['\n'] == "\n";
    ParsedConcat(a + x, b);
    ParsedConcat(a, x);
  }

  lemma {:induction false} MiddleFeeds(a: seq<Line>, x: seq<Line>, b: seq<Line>)
    ensures FeedAll(START, a + x + b) ==
            var r := FeedAll(START, a);
            if r.None? then None
            else
              var q := FeedAll(r.value, x);
              if q.None? then None else FeedAll(q.value, b)
  {
    FeedAllConcat(START, a + x, b);
    FeedAllConcat(START, a, x);
  }

  /** Readers the parser can be at after the first lines. */
  ghost predicate Reached(a: seq<string>, r: Reader) {
    FeedAll(START, Parsed(a)) == Some(r)
  }

  /** Lines that do the same to every reader they meet are as good as each other. */
  lemma {:induction false} Interchangeable(s: string, t: string, a: seq<string>, x: seq<string>, y: seq<string>,
      b: seq<string>)
    requires Places(s, a, x, b) && Places(t, a, y, b)
    requires forall r :: Reached(a, r) ==> FeedAll(r, Parsed(x)) == FeedAll(r, Parsed(y))
    ensures Parse(s) == Parse(t)
  {
    PlacedParse(s, a, x, b);
    PlacedParse(t, a, y, b);
    MiddleFeeds(Parsed(a), Parsed(x), Parsed(b));
    MiddleFeeds(Parsed(a), Parsed(y), Parsed(b));
    var r := FeedAll(START, Parsed(a));
    assert r.Some? ==> Reached(a, r.value);
  }

  lemma {:induction false} FeedText(r: Reader, c: string)
    ensures FeedAll(r, Parsed([c])) == Feed(r, Classify(c)) && FeedAll(r, Parsed([])) == Some(r)
  {
    ParsedOne(c);
    FeedOne(r, Classify(c));
  }

  lemma {:induction false} FeedTexts(r: Reader, c: string, e: string)
    ensures FeedAll(r, Parsed([c, e])) ==
            if Feed(r, Classify(c)).None? then None else Feed(Feed(r, Classify(c)).value, Classify(e))
  {
    assert [c, e] == [c] + [e];
    ParsedConcat([c], [e]);
    FeedAllConcat(r, Parsed([c]), Parsed([e]));
    FeedText(r, c);
    if Feed(r, Classify(c)).Some? {
      FeedText(Feed(r, Classify(c)).value, e);
    }
  }

  // ---- Blank lines, comments and nonsense ---------------------------------------------------

  predicate Ignored(c: string) {
    Trim(c) == "" || Trim(c)[0] == '#' || Trim(c)[0] == ';'
  }

  /** Blank lines and comments make no difference, wherever they stand. */
  lemma {:induction false} IgnoredLine(s: string, t: string, a: seq<string>, c: string, b: seq<string>)
    requires Ignored(c) && Places(s, a, [c], b) && Places(t, a, [], b)
    ensures Parse(s) == Parse(t)
  {
    forall r | Reached(a, r) ensures FeedAll(r, Parsed([c])) == FeedAll(r, Parsed([])) {
      FeedText(r, c);
    }
    Interchangeable(s, t, a, [c], [], b);
  }

  /** Neither blank nor a comment, not in brackets, and without a '='. */
  predicate Nonsense(c: string) {
    var t := Trim(c);
    !Ignored(c) && !(|t| >= 2 && t[0] == '[' && t[|t| - 1] == ']') && '=' !in t
  }

  /** One such line, and the text is no configuration. */
  lemma {:induction false} NonsenseLine(s: string, a: seq<string>, c: string, b: seq<string>)
    requires Nonsense(c) && Places(s, a, [c], b)
    ensures Parse(s) == None
  {
    PlacedParse(s, a, [c], b);
    MiddleFeeds(Parsed(a), Parsed([c]), Parsed(b));
    var r := FeedAll(START, Parsed(a));
    if r.Some? {
      FeedText(r.value, c);
    }
  }

  // ---- Headers ----------------------------------------------------------------------------------

  predicate IsHeaderText(c: string, name: string) {
    Trim(c) == "[" + name + "]"
  }

  lemma {:induction false} HeaderIs(c: string, name: string)
    requires IsHeaderText(c, name)
    ensures Classify(c) == Header(SectionOf(Lower(name)))
  {
    var t := Trim(c);
    assert t[0] == '[' && t[|t| - 1] == ']' && t[1..|t| - 1] == name;
  }

  /** Section names read alike in any case. */
  lemma {:induction false} HeaderInAnyCase(s: string, t: string, a: seq<string>, c: string, e: string, b: seq<string>,
      name: string, other: string)
    requires IsHeaderText(c, name) && IsHeaderText(e, other) && Lower(name) == Lower(other)
    requires Places(s, a, [c], b) && Places(t, a, [e], b)
    ensures Parse(s) == Parse(t)
  {
    HeaderIs(c, name);
    HeaderIs(e, other);
    SameLine(s, t, a, c, e, b);
  }

  lemma {:induction false} SameLine(s: string, t: string, a: seq<string>, c: string, e: string, b: seq<string>)
    requires Places(s, a, [c], b) && Places(t, a, [e], b) && Classify(c) == Classify(e)
    ensures Parse(s) == Parse(t)
  {
    forall r | Reached(a, r) ensures FeedAll(r, Parsed([c])) == FeedAll(r, Parsed([e])) {
      FeedText(r, c);
      FeedText(r, e);
    }
    Interchangeable(s, t, a, [c], [e], b);
  }

  // ---- Keys and values -----------------------------------------------------------------------------

  /** A line with a key, which opens no comment and no header, and a value. */
  predicate IsEntryText(c: string, name: string, v: string) {
    && c == name + "=" + v && '=' !in name
    && (Trim(name) != "" ==> Trim(name)[0] != '#' && Trim(name)[0] != ';' && Trim(name)[0] != '[')
  }

  lemma {:induction false} KeyEnds(t: string, name: string, q: string, val: string, i: nat)
    requires Trimmed(name) && AllSpace(q) && '=' !in name && t == name + q + "=" + val && i == |name + q|
    ensures i < |t| && Find(t, '=') == i && Trim(t[..i]) == name && t[i + 1..] == val
  {
    assert t == (name + q) + ['='] + val;
    FindAt(name + q, '=', val);
    TrimAround(name, q);
    assert t[..i] == name + q;
  }

  lemma {:induction false} EntryCore(t: string, name: string, q: string, val: string)
    requires Trimmed(name) && AllSpace(q) && '=' !in name && t == name + q + "=" + val
    requires name != "" ==> name[0] != '#' && name[0] != ';' && name[0] != '['
    requires name == "" ==> q == ""
    ensures ClassifyText(t) == Entry(KeyOf(Lower(name)), ReadValue(val))
  {
    KeyEnds(t, name, q, val, |name + q|);
    EntryText(t, name, val, |name + q|);
  }

  lemma {:induction false} EntryText(t: string, name: string, val: string, i: nat)
    requires i < |t| && Find(t, '=') == i && Trim(t[..i]) == name && t[i + 1..] == val
    requires t[0] == (if name == "" then '=' else name[0])
    requires name != "" ==> name[0] != '#' && name[0] != ';' && name[0] != '['
    ensures ClassifyText(t) == Entry(KeyOf(Lower(name)), ReadValue(val))
  {
  }

  lemma {:induction false} EntryIs(c: string, name: string, v: string)
    requires IsEntryText(c, name, v)
    ensures Classify(c) == Entry(KeyOf(Lower(Trim(name))), ReadValue(v))
  {
    var p, q := TrimParts(name);
    var w := Trim(name);
    if w == "" {
      p, q := p + q, "";
    }
    var head := w + q + "=";
    assert head[0] == if w == "" then '=' else w[0];
    assert c == p + (head + v);
    TrimLead(p, head + v);
    var val := TrimTail(head, v);
    EntryCore(head + val, w, q, val);
  }

  /** Keys read alike in any case, and with any white space around key and value. */
  lemma {:induction false} KeyInAnyCase(s: string, t: string, a: seq<string>, c: string, e: string, b: seq<string>,
      name: string, other: string, v: string, w: string)
    requires IsEntryText(c, name, v) && IsEntryText(e, other, w)
    requires Lower(Trim(name)) == Lower(Trim(other)) && Trim(v) == Trim(w)
    requires Places(s, a, [c], b) && Places(t, a, [e], b)
    ensures Parse(s) == Parse(t)
  {
    EntryIs(c, name, v);
    EntryIs(e, other, w);
    SameLine(s, t, a, c, e, b);
  }

  /** The section a line after these is in. */
  function SectionAfter(lines: seq<Line>): Section {
    if lines == [] then Top
    else
      var last := lines[|lines| - 1];
      if last.Header? then last.section else SectionAfter(lines[..|lines| - 1])
  }

  lemma {:induction false} ReachedSection(lines: seq<Line>, r: Reader)
    requires FeedAll(START, lines) == Some(r)
    ensures r.section == SectionAfter(lines) && OpenInPeer(r)
    decreases |lines|
  {
    if lines != [] {
      var front, last := lines[..|lines| - 1], lines[|lines| - 1];
      assert lines == front + [last];
      FeedAllConcat(START, front, [last]);
      ReachedSection(front, FeedAll(START, front).value);
      FeedOne(FeedAll(START, front).value, last);
    }
  }

  predicate InterfaceKey(name: string) {
    name in {"privatekey", "address", "dns", "mtu", "listenport"}
  }

  predicate PeerKey(name: string) {
    name in {"publickey", "presharedkey", "allowedips", "endpoint", "persistentkeepalive"}
  }

  /** Keys that mean something in a section. */
  predicate Known(section: Section, name: string) {
    (section == InInterface && InterfaceKey(name)) || (section == InPeer && PeerKey(name))
  }

  lemma UnknownEntry(r: Reader, name: string, val: string)
    requires OpenInPeer(r) && !Known(r.section, name)
    ensures Feed(r, Entry(KeyOf(name), val)) == Some(r)
  {
  }

  /** Unknown keys, keys of the other section, and keys before any section or in an unknown one make no difference. */
  lemma {:induction false} UnknownKeyLine(s: string, t: string, a: seq<string>, c: string, b: seq<string>,
      name: string, v: string)
    requires IsEntryText(c, name, v) && !Known(SectionAfter(Parsed(a)), Lower(Trim(name)))
    requires Places(s, a, [c], b) && Places(t, a, [], b)
    ensures Parse(s) == Parse(t)
  {
    EntryIs(c, name, v);
    forall r | Reached(a, r) ensures FeedAll(r, Parsed([c])) == FeedAll(r, Parsed([])) {
      ReachedSection(Parsed(a), r);
      UnknownEntry(r, Lower(Trim(name)), ReadValue(v));
      FeedText(r, c);
    }
    Interchangeable(s, t, a, [c], [], b);
  }

  /** A number that cannot be read changes nothing. */
  lemma {:induction false} UnreadableNumberLine(s: string, t: string, a: seq<string>, c: string, b: seq<string>,
      name: string, v: string)
    requires IsEntryText(c, name, v) && Lower(Trim(name)) in {"mtu", "listenport", "persistentkeepalive"}
    requires Atoi(ReadValue(v)).None? && Lower(ReadValue(v)) != "off"
    requires Places(s, a, [c], b) && Places(t, a, [], b)
    ensures Parse(s) == Parse(t)
  {
    EntryIs(c, name, v);
    forall r | Reached(a, r) ensures FeedAll(r, Parsed([c])) == FeedAll(r, Parsed([])) {
      ReachedSection(Parsed(a), r);
      UnreadableNumber(r, Lower(Trim(name)), ReadValue(v));
      FeedText(r, c);
    }
    Interchangeable(s, t, a, [c], [], b);
  }

  lemma {:induction false} UnreadableNumber(r: Reader, name: string, val: string)
    requires OpenInPeer(r) && name in {"mtu", "listenport", "persistentkeepalive"}
    requires Atoi(val).None? && Lower(val) != "off"
    ensures Feed(r, Entry(KeyOf(name), val)) == Some(r)
  {
    assert Atoi("0") == Some(0) by { ZeroReads("0"); }
  }

  lemma {:induction false} ZeroReads(z: string)
    requires z == "0"
    ensures Atoi(z) == Some(0)
  {
    AtoiItoa(0);
    assert Itoa(0) == [DigitChar(0)] == z;
  }

  lemma {:induction false} OffFeeds(r: Reader, name: string, off: string, zero: string)
    requires OpenInPeer(r) && name == "persistentkeepalive" && Lower(off) == "off" && Atoi(zero) == Some(0)
    ensures Feed(r, Entry(KeyOf(name), off)) == Feed(r, Entry(KeyOf(name), zero))
  {
  }

  lemma TextTwice(r: Reader, name: string, v: string, w: string)
    requires OpenInPeer(r) && name in {"privatekey", "publickey", "presharedkey", "endpoint"}
    ensures var n := Feed(r, Entry(KeyOf(name), v));
            n.Some? && Feed(n.value, Entry(KeyOf(name), w)) == Feed(r, Entry(KeyOf(name), w))
  {
  }

  lemma NumberTwice(r: Reader, name: string, v: string, w: string)
    requires OpenInPeer(r) && name in {"mtu", "listenport", "persistentkeepalive"} && Atoi(w).Some?
    ensures var n := Feed(r, Entry(KeyOf(name), v));
            n.Some? && Feed(n.value, Entry(KeyOf(name), w)) == Feed(r, Entry(KeyOf(name), w))
  {
  }

  /** A keepalive that is off, in any case, is one of 0, however the 0 is written. */
  lemma {:induction false} OffLine(s: string, t: string, a: seq<string>, c: string, e: string, b: seq<string>,
      name: string, v: string, w: string)
    requires IsEntryText(c, name, v) && IsEntryText(e, name, w) && Lower(Trim(name)) == "persistentkeepalive"
    requires Lower(ReadValue(v)) == "off" && Atoi(ReadValue(w)) == Some(0)
    requires Places(s, a, [c], b) && Places(t, a, [e], b)
    ensures Parse(s) == Parse(t)
  {
    EntryIs(c, name, v);
    EntryIs(e, name, w);
    forall r | Reached(a, r) ensures FeedAll(r, Parsed([c])) == FeedAll(r, Parsed([e])) {
      ReachedSection(Parsed(a), r);
      OffFeeds(r, Lower(Trim(name)), ReadValue(v), ReadValue(w));
      FeedText(r, c);
      FeedText(r, e);
    }
    Interchangeable(s, t, a, [c], [e], b);
  }

  // ---- The same key twice ------------------------------------------------------------------------

  /** A text given twice is what it was given last. */
  lemma {:induction false} LastTextCounts(s: string, t: string, a: seq<string>, c: string, e: string, b: seq<string>,
      name: string, v: string, w: string)
    requires IsEntryText(c, name, v) && IsEntryText(e, name, w)
    requires Lower(Trim(name)) in {"privatekey", "publickey", "presharedkey", "endpoint"}
    requires Places(s, a, [c, e], b) && Places(t, a, [e], b)
    ensures Parse(s) == Parse(t)
  {
    EntryIs(c, name, v);
    EntryIs(e, name, w);
    forall r | Reached(a, r) ensures FeedAll(r, Parsed([c, e])) == FeedAll(r, Parsed([e])) {
      ReachedSection(Parsed(a), r);
      TextTwice(r, Lower(Trim(name)), ReadValue(v), ReadValue(w));
      FeedTexts(r, c, e);
      FeedText(r, e);
    }
    Interchangeable(s, t, a, [c, e], [e], b);
  }

  /** So is a number, if it can be read. */
  lemma {:induction false} LastNumberCounts(s: string, t: string, a: seq<string>, c: string, e: string, b: seq<string>,
      name: string, v: string, w: string)
    requires IsEntryText(c, name, v) && IsEntryText(e, name, w)
    requires Lower(Trim(name)) in {"mtu", "listenport", "persistentkeepalive"} && Atoi(ReadValue(w)).Some?
    requires Places(s, a, [c, e], b) && Places(t, a, [e], b)
    ensures Parse(s) == Parse(t)
  {
    EntryIs(c, name, v);
    EntryIs(e, name, w);
    forall r | Reached(a, r) ensures FeedAll(r, Parsed([c, e])) == FeedAll(r, Parsed([e])) {
      ReachedSection(Parsed(a), r);
      NumberTwice(r, Lower(Trim(name)), ReadValue(v), ReadValue(w));
      FeedTexts(r, c, e);
      FeedText(r, e);
    }
    Interchangeable(s, t, a, [c, e], [e], b);
  }

  // ---- Lists given in several lines ----------------------------------------------------------------

  lemma {:induction false} SplitMore(x: string, y: string, sep: char)
    ensures Split(x + [sep] + y, sep) == Split(x, sep) + Split(y, sep)
  {
    if x == "" {
      assert x + [sep] + y == [sep] + y && ([sep] + y)[1..] == y;
    } else {
      assert (x + [sep] + y)[1..] == x[1..] + [sep] + y;
      SplitMore(x[1..], y, sep);
    }
  }

  lemma {:induction false} ItemsMore(a: seq<string>, b: seq<string>)
    ensures Items(a + b) == Items(a) + Items(b)
  {
    if a == [] {
      assert a + b == b;
    } else {
      assert (a + b)[1..] == a[1..] + b;
      ItemsMore(a[1..], b);
    }
  }

  lemma ListMore(x: string, y: string)
    ensures ReadList(x + "," + y) == ReadList(x) + ReadList(y)
  {
    assert [','] == ",";
    SplitMore(x, y, ',');
    ItemsMore(Split(x, ','), Split(y, ','));
  }

  lemma InterfaceListTwice(f: Interface, key: Key, v: string, w: string, both: string)
    requires ReadList(both) == ReadList(v) + ReadList(w) && (key == Address || key == DNS)
    ensures SetInterface(SetInterface(f, key, v), key, w) == SetInterface(f, key, both)
  {
    AppendTwice(if key == Address then f.addresses else f.dns, ReadList(v), ReadList(w));
  }

  lemma PeerListTwice(p: Peer, v: string, w: string, both: string)
    requires ReadList(both) == ReadList(v) + ReadList(w)
    ensures SetPeer(SetPeer(p, AllowedIPs, v), AllowedIPs, w) == SetPeer(p, AllowedIPs, both)
  {
    AppendTwice(p.allowedIPs, ReadList(v), ReadList(w));
  }

  lemma ListTwice(r: Reader, name: string, v: string, w: string, both: string)
    requires OpenInPeer(r) && name in {"address", "dns", "allowedips"} && ReadList(both) == ReadList(v) + ReadList(w)
    ensures var n := Feed(r, Entry(KeyOf(name), v));
            n.Some? && Feed(n.value, Entry(KeyOf(name), w)) == Feed(r, Entry(KeyOf(name), both))
  {
    if name == "allowedips" {
      PeerListTwice(r.current.GetOr(NO_PEER), v, w, both);
    } else {
      InterfaceListTwice(r.interface, KeyOf(name), v, w, both);
    }
  }

  lemma AppendTwice<T>(f: seq<T>, a: seq<T>, b: seq<T>)
    ensures f + a + b == f + (a + b)
  {
  }

  /** A list given in two lines is the list of both. */
  lemma {:induction false} ListsAddUp(s: string, t: string, a: seq<string>, c: string, e: string, m: string,
      b: seq<string>, name: string, v: string, w: string, both: string)
    requires IsEntryText(c, name, v) && IsEntryText(e, name, w) && IsEntryText(m, name, both)
    requires Lower(Trim(name)) in {"address", "dns", "allowedips"}
    requires ReadValue(both) == ReadValue(v) + "," + ReadValue(w)
    requires Places(s, a, [c, e], b) && Places(t, a, [m], b)
    ensures Parse(s) == Parse(t)
  {
    EntryIs(c, name, v);
    EntryIs(e, name, w);
    EntryIs(m, name, both);
    ListMore(ReadValue(v), ReadValue(w));
    forall r | Reached(a, r) ensures FeedAll(r, Parsed([c, e])) == FeedAll(r, Parsed([m])) {
      ReachedSection(Parsed(a), r);
      ListTwice(r, Lower(Trim(name)), ReadValue(v), ReadValue(w), ReadValue(both));
      FeedTexts(r, c, e);
      FeedText(r, m);
    }
    Interchangeable(s, t, a, [c, e], [m], b);
  }

  // ---- Inline comments ---------------------------------------------------------------------------------

  lemma {:induction false} MarkIsNew(v: string, rest: string)
    requires Unmarked(v) && v != "" && |rest| >= 2 && rest[0] == ' ' && rest[1] == '#'
    ensures MarkAt(v + rest) == |v|
  {
    assert forall k :: 0 <= k < |v| ==> (v + rest)[k] == v[k];
    assert (v + rest)[|v|] == ' ' && (v + rest)[|v| + 1] == '#';
    MarkIs(v + rest, |v|);
  }

  /** What follows " #" in a value does not count. */
  lemma {:induction false} CommentIsCut(v: string, comment: string)
    requires Trimmed(v) && v != "" && Unmarked(v)
    ensures ReadValue(v + (" #" + comment)) == v
  {
    var val := TrimTail(v + " #", comment);
    assert v + (" #" + comment) == (v + " #") + comment;
    var t := (v + " #") + val;
    assert t == v + (" #" + val);
    MarkIsNew(v, " #" + val);
    assert t[..|v|] == v;
    TrimTrimmed(v);
  }

  /** A line reads as it does without its inline comment. */
  lemma {:induction false} InlineComment(s: string, t: string, a: seq<string>, c: string, e: string, b: seq<string>,
      name: string, v: string, comment: string)
    requires Trimmed(v) && v != "" && Unmarked(v)
    requires IsEntryText(c, name, v + (" #" + comment)) && IsEntryText(e, name, v)
    requires Places(s, a, [c], b) && Places(t, a, [e], b)
    ensures Parse(s) == Parse(t)
  {
    CommentIsCut(v, comment);
    ReadClean(v);
    EntryIs(c, name, v + (" #" + comment));
    EntryIs(e, name, v);
    SameLine(s, t, a, c, e, b);
  }
}
