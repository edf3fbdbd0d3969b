/** Adding a keepalive to the peers of a configuration text (withPersistentKeepalive in client/app_wgprofiles.go). */
module Keepalive {
  import opened Options
  import opened Text
  import opened WgLines
  import opened WgLineText
  import opened WgConfig
  import opened WgRoundTrip
  import opened KeepaliveSections
  import opened KeepaliveMeaning

  // ---- One line, as the rewriter sees it ------------------------------------------

  predicate InCutset(c: char) {
    c == '[' || c == ']' || c == ' '
  }

  function CutLeft(s: string): string {
    if s != "" && InCutset(s[0]) then CutLeft(s[1..]) else s
  }

  function CutRight(s: string): string {
    if s != "" && InCutset(s[|s| - 1]) then CutRight(s[..|s| - 1]) else s
  }

  /** strings.Trim(t, "[] ") */
  function Cut(t: string): string {
    CutRight(CutLeft(t))
  }

  predicate Brackets(s: string) {
    forall i :: 0 <= i < |s| ==> s[i] in "[] "
  }

  predicate Bracketed(name: string) {
    name != "" && name[0] !in "[] " && name[|name| - 1] !in "[] "
  }

  lemma {:induction false} CutLeftPad(a: string, s: string)
    requires Brackets(a) && s != "" && s[0] !in "[] "
    ensures CutLeft(a + s) == s
  {
    if a == "" {
      assert a + s == s;
    } else {
      assert (a + s)[1..] == a[1..] + s;
      CutLeftPad(a[1..], s);
    }
  }

  lemma {:induction false} CutRightPad(s: string, b: string)
    requires Brackets(b) && s != "" && s[|s| - 1] !in "[] "
    ensures CutRight(s + b) == s
  {
    if b == "" {
      assert s + b == s;
    } else {
      assert (s + b)[..|s + b| - 1] == s + b[..|b| - 1];
      CutRightPad(s, b[..|b| - 1]);
    }
  }

  /** A header of peers is the word in any case with brackets and blanks around it, as long as a bracket comes first. */
  lemma {:induction false} HeadersOfPeers(a: string, name: string, b: string)
    requires Brackets(a) && a != "" && a[0] == '[' && Brackets(b) && Bracketed(name)
    ensures KindOfText(a + name + b) == HeaderKind(Lower(name) == "peer")
  {
    assert a + name + b == a + (name + b);
    CutLeftPad(a, name + b);
    CutRightPad(name, b);
  }

  predicate NamesKeepalive(t: string) {
    Find(t, '=') < |t| && Lower(Trim(t[..Find(t, '=')])) == "persistentkeepalive"
  }

  function KindOfText(t: string): Kind {
    if t == "" then BlankKind
    else if t[0] == '[' then HeaderKind(Lower(Cut(t)) == "peer")
    else if NamesKeepalive(t) then KeepaliveKind
    else OtherKind
  }

  function KindOf(line: string): Kind {
    KindOfText(Trim(line))
  }

  function NewLine(): string {
    EntryLine(PersistentKeepalive, Itoa(25))
  }

  function RewriteText(text: string): string {
    Join(RewriteLines(KindOf, NewLine(), Split(text, '\n')), "\n")
  }

  method WithPersistentKeepalive(text: string) returns (r: string)
    ensures r == RewriteText(text)
  {
    var out := Rewrite(KindOf, NewLine(), Split(text, '\n'));
    r := Join(out, "\n");
  }

  // ---- Rewriter and parser on one line -----------------------------------------------

  /** A line that opens with a bracket closes with one. */
  predicate ClosedText(t: string) {
    t != "" && t[0] == '[' ==> IsHeader(t)
  }

  predicate Closed(line: string) {
    ClosedText(Trim(line))
  }

  lemma KeepaliveNameIff(x: string)
    ensures x == "persistentkeepalive" <==> KeyOf(x) == PersistentKeepalive
  {
    if x == "persistentkeepalive" {
      assert x[1] == 'e';
    }
  }

  lemma {:induction false} EntryFits(t: string)
    ensures Find(t, '=') < |t| ==>
              (NamesKeepalive(t) <==>
                 EntryAt(t, Find(t, '=')).Entry? && EntryAt(t, Find(t, '=')).key == PersistentKeepalive)
  {
    if Find(t, '=') < |t| {
      KeepaliveNameIff(Lower(Trim(t[..Find(t, '=')])));
    }
  }

  /** No comment names the key. */
  lemma CommentFits(t: string)
    requires t != "" && (t[0] == '#' || t[0] == ';')
    ensures !NamesKeepalive(t)
  {
    var i := Find(t, '=');
    if 0 < i < |t| {
      TrimKeepsFirst(t[..i]);
      assert Lower(Trim(t[..i]))[0] == t[0];
    } else if i == 0 {
      assert t[0] == '=';
    }
  }

  lemma CutWord(s: string)
    requires s != "" && !InCutset(s[0]) && !InCutset(s[|s| - 1])
    ensures Cut("[" + s + "]") == s
  {
    var t := "[" + s + "]";
    assert t[1..] == s + "]";
    var u := s + "]";
    assert u[0] == s[0] && CutLeft(u) == u;
    assert CutLeft(t) == u;
    assert u[..|u| - 1] == s && u[|u| - 1] == ']';
    assert CutRight(s) == s;
  }

  lemma CutHeader(t: string, low: string)
    requires IsHeader(t) && Lower(t[1..|t| - 1]) == low
    requires low != "" && 'a' <= low[0] <= 'z' && 'a' <= low[|low| - 1] <= 'z'
    ensures Lower(Cut(t)) == low
  {
    var s := t[1..|t| - 1];
    assert t == "[" + s + "]";
    CutWord(s);
  }

  lemma HeaderFits(t: string)
    requires IsHeader(t)
    ensures Fits(HeaderKind(Lower(Cut(t)) == "peer"), HeaderOf(t))
  {
    var low := Lower(t[1..|t| - 1]);
    if low == "peer" || low == "interface" {
      CutHeader(t, low);
    }
  }

  lemma {:induction false} CutLeftKeeps(s: string, c: char)
    requires c in s && !InCutset(c)
    ensures c in CutLeft(s)
  {
    if s != "" && InCutset(s[0]) {
      assert c in s[1..];
      CutLeftKeeps(s[1..], c);
    }
  }

  lemma {:induction false} CutRightKeeps(s: string, c: char)
    requires c in s && !InCutset(c)
    ensures c in CutRight(s)
  {
    if s != "" && InCutset(s[|s| - 1]) {
      assert c in s[..|s| - 1];
      CutRightKeeps(s[..|s| - 1], c);
    }
  }

  lemma BracketIsNoKey(name: string)
    requires name != "" && name[0] == '['
    ensures KeyOf(name) == OtherKey
  {
  }

  lemma StrayKey(t: string, i: nat, name: string)
    requires 0 < i < |t| && t[0] == '[' && name == Lower(Trim(t[..i]))
    ensures KeyOf(name) == OtherKey
  {
    TrimKeepsFirst(t[..i]);
    BracketIsNoKey(name);
  }

  lemma StrayIsNoPeer(t: string)
    requires '=' in t
    ensures Lower(Cut(t)) != "peer"
  {
    CutLeftKeeps(t, '=');
    CutRightKeeps(CutLeft(t), '=');
  }

  /**
   * A bracket that does not close makes an entry of no known key, or no line at all; to the rewriter it is no peer's
   * header.
   */
  lemma {:induction false} StrayFits(t: string, i: nat)
    requires t != "" && t[0] == '[' && i == Find(t, '=')
    ensures || EntryAt(t, i).Malformed?
            || (EntryAt(t, i).Entry? && EntryAt(t, i).key == OtherKey && Lower(Cut(t)) != "peer")
  {
    if i < |t| {
      StrayKey(t, i, Lower(Trim(t[..i])));
      StrayIsNoPeer(t);
    }
  }

  lemma StrayTextFits(t: string)
    requires !ClosedText(t)
    ensures Fits(KindOfText(t), ClassifyText(t)) && KindOfText(t).HeaderKind? && !ClassifyText(t).Header?
  {
    StrayFits(t, Find(t, '='));
  }

  lemma ClosedTextFits(t: string)
    requires ClosedText(t)
    ensures Fits(KindOfText(t), ClassifyText(t)) && (KindOfText(t).HeaderKind? ==> ClassifyText(t).Header?)
  {
    if t != "" && t[0] == '[' {
      HeaderFits(t);
    } else if t != "" && (t[0] == '#' || t[0] == ';') {
      CommentFits(t);
    } else if t != "" {
      EntryFits(t);
    }
  }

  lemma LineFits(line: string)
    ensures Fits(KindOf(line), Classify(line))
    ensures Closed(line) && KindOf(line).HeaderKind? ==> Classify(line).Header?
  {
    if Closed(line) {
      ClosedTextFits(Trim(line));
    } else {
      StrayTextFits(Trim(line));
    }
  }

  // ---- The inserted line ----------------------------------------------------------------

  lemma NewLineReads(v: string)
    requires v == Itoa(25)
    ensures Classify(EntryLine(PersistentKeepalive, v)) == Entry(PersistentKeepalive, v)
    ensures '\n' !in EntryLine(PersistentKeepalive, v)
  {
    NumberReads(25, v);
    EntryReads(PersistentKeepalive, v, EntryLine(PersistentKeepalive, v));
    NoNewlineInEntry(PersistentKeepalive, v);
  }

  lemma NewLineIsKeepalive(v: string, line: string)
    requires v == Itoa(25) && line == EntryLine(PersistentKeepalive, v)
    ensures Classify(line) == Entry(PersistentKeepalive, v) && Sets25(Classify(line))
    ensures KindOf(line) == KeepaliveKind && Fits(KindOf(line), Classify(line))
  {
    NumberReads(25, v);
    NewLineReads(v);
    LineFits(line);
  }

  // ---- What rewriting does to a text --------------------------------------------------------

  lemma {:induction false} ParsedIsLines(lines: seq<string>)
    ensures Parsed(lines) == Lines(Classify, lines)
  {
    if lines != [] {
      ParsedIsLines(lines[1..]);
    }
  }

  lemma {:induction false} RewrittenSplits(text: string, ka: string)
    requires '\n' !in ka
    ensures Split(Join(RewriteLines(KindOf, ka, Split(text, '\n')), "\n"), '\n')
            == RewriteLines(KindOf, ka, Split(text, '\n'))
  {
    var out := RewriteLines(KindOf, ka, Split(text, '\n'));
    RewriteFrom(KindOf, ka, Split(text, '\n'));
    assert forall i :: 0 <= i < |out| ==> out[i] in out;
    SplitJoin(out, '\n');
  }

  lemma LinesFit(lines: seq<string>)
    ensures AllFit(KindOf, Classify, lines)
  {
    forall i | 0 <= i < |lines| ensures Fits(KindOf(lines[i]), Classify(lines[i])) {
      LineFits(lines[i]);
    }
  }

  /** The flags of the peers of a text. */
  function PeerFlags(text: string): seq<PeerFlag> {
    FlagsOf(KindOf, Classify, Split(text, '\n'))
  }

  /**
   * Rewriting gives exactly the peers whose section lacks an effective key the value 25, and changes nothing else the
   * parser sees.
   */
  lemma RewriteMeaning(text: string)
    ensures Fixed(Parse(text), Parse(RewriteText(text)), Keyed(PeerFlags(text)))
    ensures Fixed(Parse(text), Parse(RewriteText(text)), HasKey(PeerFlags(text)))
            <==> Parse(text).None? || NoneSpoiled(PeerFlags(text))
  {
    var lines := Split(text, '\n');
    LinesFit(lines);
    NewLineIsKeepalive(Itoa(25), NewLine());
    NewLineReads(Itoa(25));
    RewrittenSplits(text, NewLine());
    RewriteFixes(KindOf, Classify, NewLine(), lines);
    ParsedIsLines(lines);
    ParsedIsLines(RewriteLines(KindOf, NewLine(), lines));
  }

  lemma ClosedLinesAgree(lines: seq<string>)
    requires forall i :: 0 <= i < |lines| ==> Closed(lines[i])
    ensures HeadersAgree(KindOf, Classify, lines)
  {
    forall i | 0 <= i < |lines| && KindOf(lines[i]).HeaderKind? ensures Classify(lines[i]).Header? {
      assert Closed(lines[i]);
      LineFits(lines[i]);
    }
  }

  /** In a text whose brackets close, that is every peer whose section lacks the key. */
  lemma {:induction false} RewritePreservesMeaning(text: string)
    requires forall i :: 0 <= i < |Split(text, '\n')| ==> Closed(Split(text, '\n')[i])
    ensures Fixed(Parse(text), Parse(RewriteText(text)), HasKey(PeerFlags(text)))
  {
    RewriteMeaning(text);
    ClosedLinesAgree(Split(text, '\n'));
    AgreedIsNotSpoiled(KindOf, Classify, Split(text, '\n'));
  }

  /** Rewriting twice is rewriting once, for every text. */
  lemma RewriteTwiceIsOnce(text: string)
    ensures RewriteText(RewriteText(text)) == RewriteText(text)
  {
    NewLineIsKeepalive(Itoa(25), NewLine());
    NewLineReads(Itoa(25));
    RewrittenSplits(text, NewLine());
    RewriteIdempotent(KindOf, NewLine(), Split(text, '\n'));
  }
}
