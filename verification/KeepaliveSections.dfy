/**
 * The section rewriter of withPersistentKeepalive (client/app_wgprofiles.go), for any kind of line: kind tells what the
 * rewriter sees in a line, ka is the line it inserts.
 */
module KeepaliveSections {

  datatype Kind = HeaderKind(peer: bool) | KeepaliveKind | BlankKind | OtherKind

  datatype State<T> = State(out: seq<T>, inPeer: bool, hasKA: bool)

  predicate AllBlank<T>(kind: T -> Kind, lines: seq<T>) {
    forall k :: 0 <= k < |lines| ==> kind(lines[k]) == BlankKind
  }

  /** Number of lines before the trailing blank ones. */
  function TextEnd<T>(kind: T -> Kind, out: seq<T>): (i: nat)
    ensures i <= |out|
    ensures AllBlank(kind, out[i..])
    ensures i > 0 ==> kind(out[i - 1]) != BlankKind
  {
    if out != [] && kind(out[|out| - 1]) == BlankKind then TextEnd(kind, out[..|out| - 1]) else |out|
  }

  function Inserted<T>(kind: T -> Kind, ka: T, out: seq<T>): seq<T> {
    var i := TextEnd(kind, out);
    out[..i] + [ka] + out[i..]
  }

  /** The section that ends here gets the line if it is a peer's and has none. */
  function Flush<T>(kind: T -> Kind, ka: T, s: State<T>): State<T> {
    if s.inPeer && !s.hasKA then State(Inserted(kind, ka, s.out), true, true) else s
  }

  function Step<T>(kind: T -> Kind, ka: T, s: State<T>, line: T): State<T> {
    match kind(line)
    case HeaderKind(peer) => State(Flush(kind, ka, s).out + [line], peer, false)
    case KeepaliveKind => State(s.out + [line], s.inPeer, s.hasKA || s.inPeer)
    case _ => State(s.out + [line], s.inPeer, s.hasKA)
  }

  function Run<T>(kind: T -> Kind, ka: T, s: State<T>, lines: seq<T>): State<T>
    decreases |lines|
  {
    if lines == [] then s else Run(kind, ka, Step(kind, ka, s, lines[0]), lines[1..])
  }

  function Start<T>(): State<T> {
    State([], false, false)
  }

  function RewriteLines<T>(kind: T -> Kind, ka: T, lines: seq<T>): seq<T> {
    Flush(kind, ka, Run(kind, ka, Start(), lines)).out
  }

  // ---- The loops ------------------------------------------------------------------

  lemma TextEndDrop<T>(kind: T -> Kind, out: seq<T>, i: nat)
    requires 0 < i <= |out| && kind(out[i - 1]) == BlankKind
    ensures TextEnd(kind, out[..i]) == TextEnd(kind, out[..i - 1])
  {
    assert out[..i][..i - 1] == out[..i - 1];
  }

  method InsertLine<T>(kind: T -> Kind, ka: T, out: seq<T>) returns (r: seq<T>)
    ensures r == Inserted(kind, ka, out)
  {
    var i := |out|;
    assert out[..i] == out;
    while i > 0 && kind(out[i - 1]) == BlankKind
      invariant 0 <= i <= |out|
      invariant TextEnd(kind, out[..i]) == TextEnd(kind, out)
    {
      TextEndDrop(kind, out, i);
      i := i - 1;
    }
    r := out[..i] + [ka] + out[i..];
  }

  lemma {:induction false} RunNext<T>(kind: T -> Kind, ka: T, s: State<T>, lines: seq<T>, i: nat)
    requires i < |lines|
    ensures Run(kind, ka, s, lines[i..]) == Run(kind, ka, Step(kind, ka, s, lines[i]), lines[i + 1..])
  {
    assert lines[i..][0] == lines[i] && lines[i..][1..] == lines[i + 1..];
  }

  method Rewrite<T>(kind: T -> Kind, ka: T, lines: seq<T>) returns (out: seq<T>)
    ensures out == RewriteLines(kind, ka, lines)
  {
    out := [];
    var inPeer, hasKA := false, false;
    var i := 0;
    while i < |lines|
      invariant 0 <= i <= |lines|
      invariant Run(kind, ka, State(out, inPeer, hasKA), lines[i..]) == Run(kind, ka, Start(), lines)
    {
      RunNext(kind, ka, State(out, inPeer, hasKA), lines, i);
      match kind(lines[i]) {
        case HeaderKind(peer) =>
          if inPeer && !hasKA {
            out := InsertLine(kind, ka, out);
          }
          inPeer, hasKA := peer, false;
        case KeepaliveKind =>
          if inPeer {
            hasKA := true;
          }
        case _ =>
      }
      out := out + [lines[i]];
      i := i + 1;
    }
    if inPeer && !hasKA {
      out := InsertLine(kind, ka, out);
    }
  }

  // ---- Twice is once --------------------------------------------------------------------

  lemma {:induction false} RunConcat<T>(kind: T -> Kind, ka: T, s: State<T>, a: seq<T>, b: seq<T>)
    ensures Run(kind, ka, s, a + b) == Run(kind, ka, Run(kind, ka, s, a), b)
    decreases |a|
  {
    if a == [] {
      assert a + b == b;
    } else {
      assert (a + b)[1..] == a[1..] + b;
      RunConcat(kind, ka, Step(kind, ka, s, a[0]), a[1..], b);
    }
  }

  lemma {:induction false} RunBlanks<T>(kind: T -> Kind, ka: T, s: State<T>, blanks: seq<T>)
    requires AllBlank(kind, blanks)
    ensures Run(kind, ka, s, blanks) == s.(out := s.out + blanks)
    decreases |blanks|
  {
    if blanks == [] {
      assert s.out + blanks == s.out;
    } else {
      RunBlanks(kind, ka, Step(kind, ka, s, blanks[0]), blanks[1..]);
      assert s.out + [blanks[0]] + blanks[1..] == s.out + blanks;
    }
  }

  /** Running over what was written leads to the same place. */
  ghost predicate Settled<T>(kind: T -> Kind, ka: T, s: State<T>) {
    Run(kind, ka, Start(), s.out) == s
  }

  lemma FlushSettles<T>(kind: T -> Kind, ka: T, s: State<T>)
    requires kind(ka) == KeepaliveKind && Settled(kind, ka, s)
    ensures Settled(kind, ka, Flush(kind, ka, s))
  {
    if s.inPeer && !s.hasKA {
      var i := TextEnd(kind, s.out);
      var a, blanks := s.out[..i], s.out[i..];
      assert a + blanks == s.out;
      RunConcat(kind, ka, Start(), a, blanks);
      var t := Run(kind, ka, Start(), a);
      RunBlanks(kind, ka, t, blanks);
      assert t.out == a by { assert t.out + blanks == a + blanks; SameStart(t.out, a, blanks); }
      RunConcat(kind, ka, Start(), a + [ka], blanks);
      RunConcat(kind, ka, Start(), a, [ka]);
      RunBlanks(kind, ka, State(a + [ka], true, true), blanks);
    }
  }

  lemma SameStart<T>(a: seq<T>, b: seq<T>, c: seq<T>)
    requires a + c == b + c
    ensures a == b
  {
    assert |a + c| == |b + c|;
    assert a == (a + c)[..|a|] && b == (b + c)[..|b|];
  }

  lemma StepSettles<T>(kind: T -> Kind, ka: T, s: State<T>, line: T)
    requires kind(ka) == KeepaliveKind && Settled(kind, ka, s)
    ensures Settled(kind, ka, Step(kind, ka, s, line))
  {
    FlushSettles(kind, ka, s);
    var f := if kind(line).HeaderKind? then Flush(kind, ka, s) else s;
    RunConcat(kind, ka, Start(), f.out, [line]);
  }

  lemma {:induction false} RunSettles<T>(kind: T -> Kind, ka: T, s: State<T>, lines: seq<T>)
    requires kind(ka) == KeepaliveKind && Settled(kind, ka, s)
    ensures Settled(kind, ka, Run(kind, ka, s, lines))
    decreases |lines|
  {
    if lines != [] {
      StepSettles(kind, ka, s, lines[0]);
      RunSettles(kind, ka, Step(kind, ka, s, lines[0]), lines[1..]);
    }
  }

  /** Rewriting what was rewritten changes nothing. */
  lemma RewriteIdempotent<T>(kind: T -> Kind, ka: T, lines: seq<T>)
    requires kind(ka) == KeepaliveKind
    ensures RewriteLines(kind, ka, RewriteLines(kind, ka, lines)) == RewriteLines(kind, ka, lines)
  {
    RunSettles(kind, ka, Start(), lines);
    FlushSettles(kind, ka, Run(kind, ka, Start(), lines));
  }

  // ---- What is in the result ---------------------------------------------------------------

  /** Lines of the original, and the new one. */
  ghost predicate From<T(!new)>(out: seq<T>, lines: seq<T>, ka: T) {
    forall x :: x in out ==> x in lines || x == ka
  }

  lemma {:induction false} RunFrom<T(!new)>(kind: T -> Kind, ka: T, s: State<T>, rest: seq<T>, lines: seq<T>)
    requires From(s.out, lines, ka) && forall x :: x in rest ==> x in lines
    ensures From(Run(kind, ka, s, rest).out, lines, ka)
    ensures |Run(kind, ka, s, rest).out| >= |s.out| + |rest|
    decreases |rest|
  {
    if rest != [] {
      RunFrom(kind, ka, Step(kind, ka, s, rest[0]), rest[1..], lines);
    }
  }

  lemma RewriteFrom<T(!new)>(kind: T -> Kind, ka: T, lines: seq<T>)
    ensures From(RewriteLines(kind, ka, lines), lines, ka) && |RewriteLines(kind, ka, lines)| >= |lines|
  {
    RunFrom(kind, ka, Start(), lines, lines);
  }
}
