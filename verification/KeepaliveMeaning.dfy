/**
 * What the rewriter does to a configuration, stated through the parser (client/app_wgprofiles.go against
 * client/internal/config/parser.go).
 */
module KeepaliveMeaning {
  import opened Options
  import opened Text
  import opened WgLines
  import opened WgConfig
  import opened KeepaliveSections

  /** The parsed lines of a text. */
  function Lines<T>(parse: T -> Line, xs: seq<T>): (r: seq<Line>)
    ensures |r| == |xs| && forall i :: 0 <= i < |xs| ==> r[i] == parse(xs[i])
  {
    if xs == [] then [] else [parse(xs[0])] + Lines(parse, xs[1..])
  }

  /**
   * What the rewriter sees in a line agrees with the parser, who may know fewer headers: a line that opens with a
   * bracket and does not close is a header to the rewriter only.
   */
  predicate Fits(kind: Kind, l: Line) {
    match kind
    case HeaderKind(peer) =>
      match l {
        case Header(section) => (section == InPeer ==> peer) && (section == InInterface ==> !peer)
        case Entry(key, _) => key == OtherKey && !peer
        case Malformed => true
        case Blank => false
      }
    case KeepaliveKind => l.Entry? && l.key == PersistentKeepalive
    case BlankKind => l == Blank
    case OtherKind => !l.Header? && !(l.Entry? && l.key == PersistentKeepalive)
  }

  predicate AllFit<T>(kind: T -> Kind, parse: T -> Line, xs: seq<T>) {
    forall i :: 0 <= i < |xs| ==> Fits(kind(xs[i]), parse(xs[i]))
  }

  // ---- Which peers have the key ---------------------------------------------------

  predicate Readable(val: string) {
    Lower(val) == "off" || val == "0" || Atoi(val).Some?
  }

  /**
   * Of a peer's section. has: it has the key. open: no unclosed bracket came yet. keyed: it has the key before any
   * unclosed bracket, or a readable one after it.
   */
  datatype PeerFlag = PeerFlag(open: bool, has: bool, keyed: bool)

  const NEW_FLAG := PeerFlag(true, false, false)

  function FlagPeer(g: PeerFlag, k: Kind, l: Line): PeerFlag {
    if k.HeaderKind? then g.(open := false)
    else if l.Entry? && l.key == PersistentKeepalive then PeerFlag(g.open, true, g.keyed || g.open || Readable(l.val))
    else g
  }

  /** One flag for each peer the parser keeps; current: that of the open section. */
  datatype Flags = Flags(closed: seq<PeerFlag>, section: Section, current: Option<PeerFlag>)

  const NO_FLAGS := Flags([], Top, None)

  function WithCurrentFlag(f: Flags): seq<PeerFlag> {
    if f.current.Some? then f.closed + [f.current.value] else f.closed
  }

  function Flag(f: Flags, k: Kind, l: Line): Flags {
    match l
    case Header(InPeer) => Flags(WithCurrentFlag(f), InPeer, Some(NEW_FLAG))
    case Header(s) => Flags(f.closed, s, None)
    case Entry(_, _) =>
      if f.section == InPeer then f.(current := Some(FlagPeer(f.current.GetOr(NEW_FLAG), k, l))) else f
    case _ => f
  }

  function FlagAll<T>(kind: T -> Kind, parse: T -> Line, f: Flags, xs: seq<T>): Flags
    decreases |xs|
  {
    if xs == [] then f else FlagAll(kind, parse, Flag(f, kind(xs[0]), parse(xs[0])), xs[1..])
  }

  function FlagsOf<T>(kind: T -> Kind, parse: T -> Line, xs: seq<T>): seq<PeerFlag> {
    WithCurrentFlag(FlagAll(kind, parse, NO_FLAGS, xs))
  }

  function Keyed(flags: seq<PeerFlag>): (r: seq<bool>)
    ensures |r| == |flags| && forall i :: 0 <= i < |flags| ==> r[i] == flags[i].keyed
  {
    if flags == [] then [] else [flags[0].keyed] + Keyed(flags[1..])
  }

  /** Does the section have the key? */
  function HasKey(flags: seq<PeerFlag>): (r: seq<bool>)
    ensures |r| == |flags| && forall i :: 0 <= i < |flags| ==> r[i] == flags[i].has
  {
    if flags == [] then [] else [flags[0].has] + HasKey(flags[1..])
  }

  /** An unclosed bracket comes before the section's first key, and none of its keys is readable. */
  predicate Spoiled(g: PeerFlag) {
    g.has && !g.keyed
  }

  predicate NoneSpoiled(flags: seq<PeerFlag>) {
    forall i :: 0 <= i < |flags| ==> !Spoiled(flags[i])
  }

  /** Peers without the key get 25. */
  function Fix(peers: seq<Peer>, keyed: seq<bool>): (r: seq<Peer>)
    requires |peers| == |keyed|
    ensures |r| == |peers|
    ensures forall i :: 0 <= i < |peers| ==> r[i] == if keyed[i] then peers[i] else peers[i].(keepalive := 25)
  {
    if peers == [] then []
    else [if keyed[0] then peers[0] else peers[0].(keepalive := 25)] + Fix(peers[1..], keyed[1..])
  }

  // ---- Reading line by line ----------------------------------------------------------

  lemma {:induction false} LinesConcat<T>(parse: T -> Line, a: seq<T>, b: seq<T>)
    ensures Lines(parse, a + b) == Lines(parse, a) + Lines(parse, b)
  {
  }

  /** The reader after everything written so far. */
  function ReadSoFar<T>(parse: T -> Line, out: seq<T>): Option<Reader> {
    FeedAll(WgConfig.START, Lines(parse, out))
  }

  function FeedSome(r: Option<Reader>, l: Line): Option<Reader> {
    if r.None? then None else Feed(r.value, l)
  }

  lemma ReadMore<T>(parse: T -> Line, out: seq<T>, line: T)
    ensures ReadSoFar(parse, out + [line]) == FeedSome(ReadSoFar(parse, out), parse(line))
  {
    LinesConcat(parse, out, [line]);
    FeedAllConcat(WgConfig.START, Lines(parse, out), Lines(parse, [line]));
    assert Lines(parse, [line]) == [parse(line)];
    if ReadSoFar(parse, out).Some? {
      FeedFirst(ReadSoFar(parse, out).value, parse(line), []);
      assert [parse(line)] + [] == [parse(line)];
    }
  }

  lemma {:induction false} ReadBlanks<T>(parse: T -> Line, out: seq<T>, blanks: seq<T>)
    requires forall i :: 0 <= i < |blanks| ==> parse(blanks[i]) == Blank
    ensures ReadSoFar(parse, out + blanks) == ReadSoFar(parse, out)
    decreases |blanks|
  {
    if blanks == [] {
      assert out + blanks == out;
    } else {
      ReadMore(parse, out, blanks[0]);
      ReadBlanks(parse, out + [blanks[0]], blanks[1..]);
      assert out + [blanks[0]] + blanks[1..] == out + blanks;
    }
  }

  /** A line inserted before blank lines reads as if it came last. */
  lemma ReadInserted<T>(kind: T -> Kind, parse: T -> Line, ka: T, out: seq<T>)
    requires AllFit(kind, parse, out)
    ensures ReadSoFar(parse, Inserted(kind, ka, out)) == FeedSome(ReadSoFar(parse, out), parse(ka))
  {
    var i := TextEnd(kind, out);
    var a, blanks := out[..i], out[i..];
    assert a + blanks == out;
    assert forall k :: 0 <= k < |blanks| ==> blanks[k] == out[i + k];
    forall k | 0 <= k < |blanks| ensures parse(blanks[k]) == Blank {
      assert kind(blanks[k]) == BlankKind;
      assert Fits(kind(out[i + k]), parse(out[i + k]));
    }
    ReadBlanks(parse, a, blanks);
    ReadMore(parse, a, ka);
    ReadBlanks(parse, a + [ka], blanks);
  }

  // ---- Step by step -------------------------------------------------------------------

  /** The line that is inserted. */
  ghost predicate Sets25(l: Line) {
    l.Entry? && l.key == PersistentKeepalive && forall p: Peer :: SetPeer(p, l.key, l.val) == p.(keepalive := 25)
  }

  /** The open section: p as read from the original, q as read from what was written. */
  ghost predicate OpenFits<T>(s: State<T>, p: Peer, g: PeerFlag, q: Peer) {
    && (g.keyed ==> g.has) && (!g.keyed ==> p.keepalive == 0)
    && if g.open then s.inPeer && s.hasKA == g.keyed == g.has && q == p
       else !s.inPeer && q == if g.keyed then p else p.(keepalive := 25)
  }

  /** The closed sections: fixed, and without a value where they are not keyed. */
  ghost predicate ClosedFit(ps: seq<Peer>, flags: seq<PeerFlag>, qs: seq<Peer>) {
    && |flags| == |ps| && qs == Fix(ps, Keyed(flags))
    && (forall i :: 0 <= i < |ps| ==> (flags[i].keyed ==> flags[i].has) && (!flags[i].keyed ==> ps[i].keepalive == 0))
  }

  /** p: the reader of the original; q: of what was written. */
  ghost predicate Matches<T>(s: State<T>, p: Reader, f: Flags, q: Reader) {
    && q.interface == p.interface && q.section == p.section == f.section
    && (s.inPeer ==> p.section != InInterface)
    && (p.current.Some? <==> p.section == InPeer) && (f.current.Some? <==> p.section == InPeer)
      && (q.current.Some? <==> p.section == InPeer)
    && (p.section == InPeer ==> OpenFits(s, p.current.value, f.current.value, q.current.value))
    && ClosedFit(p.peers, f.closed, q.peers)
  }

  ghost predicate Related<T>(s: State<T>, p: Option<Reader>, f: Flags, q: Option<Reader>) {
    if p.None? then q.None? else q.Some? && Matches(s, p.value, f, q.value)
  }

  lemma {:induction false} FixMore(peers: seq<Peer>, keyed: seq<bool>, p: Peer, k: bool)
    requires |peers| == |keyed|
    ensures Fix(peers + [p], keyed + [k]) == Fix(peers, keyed) + [if k then p else p.(keepalive := 25)]
  {
  }

  lemma OneMoreClosed(ps: seq<Peer>, flags: seq<PeerFlag>, qs: seq<Peer>, p: Peer, g: PeerFlag, q: Peer)
    requires ClosedFit(ps, flags, qs) && q == if g.keyed then p else p.(keepalive := 25)
    requires (g.keyed ==> g.has) && (!g.keyed ==> p.keepalive == 0)
    ensures ClosedFit(ps + [p], flags + [g], qs + [q])
  {
    FixMore(ps, Keyed(flags), p, g.keyed);
    assert Keyed(flags + [g]) == Keyed(flags) + [g.keyed];
  }

  /** What the end of a section does to the reader of what was written. */
  function Flushed<T>(s: State<T>, q: Option<Reader>, ka: Line): Option<Reader> {
    if s.inPeer && !s.hasKA then FeedSome(q, ka) else q
  }

  lemma ReadFlush<T>(kind: T -> Kind, parse: T -> Line, ka: T, s: State<T>)
    requires AllFit(kind, parse, s.out)
    ensures ReadSoFar(parse, Flush(kind, ka, s).out) == Flushed(s, ReadSoFar(parse, s.out), parse(ka))
  {
    ReadInserted(kind, parse, ka, s.out);
  }

  /** Flushing changes nothing but the open peer, which it fixes. */
  lemma FlushedIs<T>(s: State<T>, p: Reader, f: Flags, q: Reader, ka: Line)
    requires Matches(s, p, f, q) && Sets25(ka)
    ensures Flushed(s, Some(q), ka).Some?
    ensures var r := Flushed(s, Some(q), ka).value;
            && r.interface == q.interface && r.section == q.section && r.peers == q.peers
            && (r.current.Some? <==> p.section == InPeer)
            && (p.section == InPeer ==>
                  r.current.value == if f.current.value.keyed then p.current.value
                    else p.current.value.(keepalive := 25))
  {
  }

  lemma FlushedWithCurrent<T>(s: State<T>, p: Reader, f: Flags, q: Reader, ka: Line)
    requires Matches(s, p, f, q) && Sets25(ka)
    ensures Flushed(s, Some(q), ka).Some?
    ensures ClosedFit(WithCurrent(p), WithCurrentFlag(f), WithCurrent(Flushed(s, Some(q), ka).value))
  {
    FlushedIs(s, p, f, q, ka);
    if p.section == InPeer {
      OneMoreClosed(p.peers, f.closed, q.peers, p.current.value, f.current.value,
        Flushed(s, Some(q), ka).value.current.value);
    }
  }

  lemma HeaderMatches<T>(s: State<T>, p: Reader, f: Flags, q: Reader, ka: Line, k: Kind, h: Line, t: State<T>)
    requires Matches(s, p, f, q) && Sets25(ka) && h.Header? && Fits(k, h) && k.HeaderKind? && t.inPeer == k.peer
             && !t.hasKA
    ensures Flushed(s, Some(q), ka).Some?
    ensures var q' := Feed(Flushed(s, Some(q), ka).value, h); var p' := Feed(p, h);
            q'.Some? && p'.Some? && Matches(t, p'.value, Flag(f, k, h), q'.value)
  {
    FlushedIs(s, p, f, q, ka);
    FlushedWithCurrent(s, p, f, q, ka);
  }

  /** A header to the rewriter only: an entry without meaning, or the end of parsing. */
  lemma StrayMatches<T>(s: State<T>, p: Reader, f: Flags, q: Reader, ka: Line, k: Kind, l: Line, t: State<T>)
    requires Matches(s, p, f, q) && Sets25(ka) && !l.Header? && Fits(k, l) && k.HeaderKind? && t.inPeer == k.peer
             && !t.hasKA
    ensures Flushed(s, Some(q), ka).Some?
    ensures Feed(p, l).None? <==> Feed(Flushed(s, Some(q), ka).value, l).None?
    ensures Feed(p, l).Some? ==> Matches(t, Feed(p, l).value, Flag(f, k, l),
            Feed(Flushed(s, Some(q), ka).value, l).value)
  {
    FlushedIs(s, p, f, q, ka);
  }

  lemma KeepaliveMatches<T>(s: State<T>, p: Peer, g: PeerFlag, q: Peer, l: Line, t: State<T>)
    requires OpenFits(s, p, g, q) && l.Entry? && l.key == PersistentKeepalive
    requires t.inPeer == s.inPeer && t.hasKA == (s.hasKA || s.inPeer)
    ensures OpenFits(t, SetPeer(p, l.key, l.val), FlagPeer(g, KeepaliveKind, l), SetPeer(q, l.key, l.val))
  {
  }

  lemma OtherMatches<T>(s: State<T>, p: Reader, f: Flags, q: Reader, l: Line, k: Kind, t: State<T>)
    requires Matches(s, p, f, q) && Fits(k, l) && !k.HeaderKind?
    requires t.inPeer == s.inPeer && t.hasKA == (s.hasKA || (s.inPeer && k == KeepaliveKind))
    ensures Feed(p, l).None? <==> Feed(q, l).None?
    ensures Feed(p, l).Some? ==> Matches(t, Feed(p, l).value, Flag(f, k, l), Feed(q, l).value)
  {
    if k == KeepaliveKind && p.section == InPeer {
      KeepaliveMatches(s, p.current.value, f.current.value, q.current.value, l, t);
    }
  }

  lemma AllFitMore<T>(kind: T -> Kind, parse: T -> Line, ka: T, s: State<T>, line: T)
    requires AllFit(kind, parse, s.out) && Fits(kind(ka), parse(ka)) && Fits(kind(line), parse(line))
    ensures AllFit(kind, parse, Flush(kind, ka, s).out) && AllFit(kind, parse, Step(kind, ka, s, line).out)
  {
    var i := TextEnd(kind, s.out);
    var f := Inserted(kind, ka, s.out);
    assert forall k :: 0 <= k < |f| ==> f[k] == if k < i then s.out[k] else if k == i then ka else s.out[k - 1];
  }

  lemma StepRelates<T>(kind: T -> Kind, parse: T -> Line, ka: T, s: State<T>, p: Option<Reader>, f: Flags, line: T)
    requires AllFit(kind, parse, s.out) && Fits(kind(line), parse(line)) && Sets25(parse(ka))
    requires Related(s, p, f, ReadSoFar(parse, s.out))
    ensures var t := Step(kind, ka, s, line);
            Related(t, FeedSome(p, parse(line)), Flag(f, kind(line), parse(line)), ReadSoFar(parse, t.out))
  {
    var t := Step(kind, ka, s, line);
    if kind(line).HeaderKind? {
      ReadFlush(kind, parse, ka, s);
      ReadMore(parse, Flush(kind, ka, s).out, line);
      if p.Some? {
        if parse(line).Header? {
          HeaderMatches(s, p.value, f, ReadSoFar(parse, s.out).value, parse(ka), kind(line), parse(line), t);
        } else {
          StrayMatches(s, p.value, f, ReadSoFar(parse, s.out).value, parse(ka), kind(line), parse(line), t);
        }
      }
    } else {
      ReadMore(parse, s.out, line);
      if p.Some? {
        OtherMatches(s, p.value, f, ReadSoFar(parse, s.out).value, parse(line), kind(line), t);
      }
    }
  }

  function FeedAllSome(p: Option<Reader>, lines: seq<Line>): Option<Reader> {
    if p.None? then None else FeedAll(p.value, lines)
  }

  lemma {:induction false} RunRelates<T>(kind: T -> Kind, parse: T -> Line, ka: T, s: State<T>, p: Option<Reader>,
      f: Flags, xs: seq<T>)
    requires AllFit(kind, parse, s.out) && AllFit(kind, parse, xs) && Fits(kind(ka), parse(ka)) && Sets25(parse(ka))
    requires Related(s, p, f, ReadSoFar(parse, s.out))
    ensures var t := Run(kind, ka, s, xs);
            && AllFit(kind, parse, t.out)
            && Related(t, FeedAllSome(p, Lines(parse, xs)), FlagAll(kind, parse, f, xs), ReadSoFar(parse, t.out))
    decreases |xs|
  {
    if xs != [] {
      AllFitMore(kind, parse, ka, s, xs[0]);
      StepRelates(kind, parse, ka, s, p, f, xs[0]);
      RunRelates(kind, parse, ka, Step(kind, ka, s, xs[0]), FeedSome(p, parse(xs[0])),
        Flag(f, kind(xs[0]), parse(xs[0])), xs[1..]);
    }
  }

  // ---- The whole text --------------------------------------------------------------------

  /** The parsed config, with 25 at the peers the list does not name. */
  ghost predicate Fixed(before: Option<Config>, after: Option<Config>, keyed: seq<bool>) {
    if before.None? then after.None?
    else && after.Some? && after.value.interface == before.value.interface
         && |keyed| == |before.value.peers| && after.value.peers == Fix(before.value.peers, keyed)
  }

  /** before and after, with the flags of the peers in between. */
  ghost predicate Explained(before: Option<Config>, after: Option<Config>, flags: seq<PeerFlag>) {
    if before.None? then after.None?
    else && after.Some? && after.value.interface == before.value.interface
         && ClosedFit(before.value.peers, flags, after.value.peers)
  }

  /** What the rewriter does, for any lines: every peer without the key, or without an effective one, gets 25. */
  lemma {:induction false} RewriteIsExplained<T>(kind: T -> Kind, parse: T -> Line, ka: T, xs: seq<T>)
    requires AllFit(kind, parse, xs) && Fits(kind(ka), parse(ka)) && Sets25(parse(ka))
    ensures Explained(ParseLines(Lines(parse, xs)), ParseLines(Lines(parse, RewriteLines(kind, ka, xs))),
            FlagsOf(kind, parse, xs))
  {
    var start := Start<T>();
    RunRelates(kind, parse, ka, start, Some(WgConfig.START), NO_FLAGS, xs);
    var s := Run(kind, ka, start, xs);
    ReadFlush(kind, parse, ka, s);
    var p, f := ReadSoFar(parse, xs), FlagAll(kind, parse, NO_FLAGS, xs);
    if p.Some? {
      var q := ReadSoFar(parse, s.out).value;
      FlushedIs(s, p.value, f, q, parse(ka));
      FlushedWithCurrent(s, p.value, f, q, parse(ka));
    }
  }

  /** Fixing by what is effective fixes exactly the peers without the key, unless one is spoiled. */
  lemma {:induction false} ExplainedIff(before: Option<Config>, after: Option<Config>, flags: seq<PeerFlag>)
    requires Explained(before, after, flags)
    ensures Fixed(before, after, Keyed(flags))
    ensures Fixed(before, after, HasKey(flags)) <==> before.None? || NoneSpoiled(flags)
  {
    if before.Some? {
      var peers := before.value.peers;
      if NoneSpoiled(flags) {
        assert HasKey(flags) == Keyed(flags);
      } else {
        var i :| 0 <= i < |flags| && Spoiled(flags[i]);
        assert Fix(peers, Keyed(flags))[i] != Fix(peers, HasKey(flags))[i];
      }
    }
  }

  /**
   * The rewriter fixes exactly the peers without the key, and fails to parse exactly when the original does, unless a
   * kept peer is spoiled.
   */
  lemma {:induction false} RewriteFixes<T>(kind: T -> Kind, parse: T -> Line, ka: T, xs: seq<T>)
    requires AllFit(kind, parse, xs) && Fits(kind(ka), parse(ka)) && Sets25(parse(ka))
    ensures var before, after := ParseLines(Lines(parse, xs)), ParseLines(Lines(parse, RewriteLines(kind, ka, xs)));
            var flags := FlagsOf(kind, parse, xs);
            && Fixed(before, after, Keyed(flags))
            && (Fixed(before, after, HasKey(flags)) <==> before.None? || NoneSpoiled(flags))
  {
    RewriteIsExplained(kind, parse, ka, xs);
    ExplainedIff(ParseLines(Lines(parse, xs)), ParseLines(Lines(parse, RewriteLines(kind, ka, xs))),
      FlagsOf(kind, parse, xs));
  }

  // ---- Without unclosed brackets -----------------------------------------------------------

  predicate AllOpen(f: Flags) {
    (forall i :: 0 <= i < |f.closed| ==> !Spoiled(f.closed[i]))
      && (f.current.Some? ==> f.current.value.open && !Spoiled(f.current.value))
  }

  predicate HeadersAgree<T>(kind: T -> Kind, parse: T -> Line, xs: seq<T>) {
    forall i :: 0 <= i < |xs| && kind(xs[i]).HeaderKind? ==> parse(xs[i]).Header?
  }

  lemma {:induction false} AgreedStayOpen<T>(kind: T -> Kind, parse: T -> Line, f: Flags, xs: seq<T>)
    requires AllOpen(f) && HeadersAgree(kind, parse, xs)
    ensures AllOpen(FlagAll(kind, parse, f, xs))
    decreases |xs|
  {
    if xs != [] {
      AgreedStayOpen(kind, parse, Flag(f, kind(xs[0]), parse(xs[0])), xs[1..]);
    }
  }

  lemma AgreedIsNotSpoiled<T>(kind: T -> Kind, parse: T -> Line, xs: seq<T>)
    requires HeadersAgree(kind, parse, xs)
    ensures NoneSpoiled(FlagsOf(kind, parse, xs))
  {
    AgreedStayOpen(kind, parse, NO_FLAGS, xs);
  }
}
