/** What port lists mean, told from how they are written (server/internal/ports/ports.go). */
module PortTexts {
  import opened Options
  import opened Text
  import opened Ports

  /** An entry as it is written; nothing between two commas is an entry too. */
  datatype Entry = Nothing | Port(n: nat) | Span(lo: nat, hi: nat, sep: char)

  function Written(e: Entry): string {
    match e
    case Nothing => ""
    case Port(n) => Itoa(n)
    case Span(lo, hi, sep) => Itoa(lo) + [sep] + Itoa(hi)
  }

  predicate Wellformed(e: Entry) {
    e.Span? ==> e.sep == '-' || e.sep == ':'
  }

  predicate InBounds(e: Entry) {
    match e
    case Nothing => true
    case Port(n) => 1 <= n <= 65535
    case Span(lo, hi, _) => 1 <= lo <= hi <= 65535
  }

  function BoundOf(e: Entry): PortRange
    requires !e.Nothing?
  {
    if e.Port? then PortRange(e.n, e.n) else PortRange(e.lo, e.hi)
  }

  /** The first and last port of each entry, in order. */
  function Bounds(es: seq<Entry>): seq<PortRange> {
    if es == [] then [] else (if es[0].Nothing? then [] else [BoundOf(es[0])]) + Bounds(es[1..])
  }

  predicate AllInBounds(es: seq<Entry>) {
    forall i :: 0 <= i < |es| ==> InBounds(es[i])
  }

  /** texts are the entries with spaces anywhere. */
  predicate Writes(texts: seq<string>, es: seq<Entry>) {
    |texts| == |es| && forall i :: 0 <= i < |es| ==> Wellformed(es[i]) && Squash(texts[i]) == Written(es[i])
  }

  // ---- One entry ---------------------------------------------------------------------

  lemma {:induction false} PortIs(n: nat)
    ensures ParsePort(Itoa(n)) == if 1 <= n <= 65535 then Some(n) else None
  {
    assert Trimmed(Itoa(n));
    TrimTrimmed(Itoa(n));
    AtoiItoa(n);
  }

  lemma {:induction false} SpanSplits(lo: string, hi: string, sep: char, d: string)
    requires AllDigits(lo) && AllDigits(hi) && (sep == '-' || sep == ':') && d == lo + [sep] + hi
    ensures ('-' in d || ':' in d) && Separator(d) == sep && Split(d, sep) == [lo, hi]
  {
    assert d[|lo|] == sep;
    DigitsHoldNone(lo);
    DigitsHoldNone(hi);
    SplitPair(lo, sep, hi);
  }

  lemma {:induction false} SpanReads(lo: nat, hi: nat, sep: char, d: string)
    requires (sep == '-' || sep == ':') && d == Itoa(lo) + [sep] + Itoa(hi)
    ensures ParseSpec(d) == if 1 <= lo <= hi <= 65535 then Some(PortRange(lo, hi)) else None
  {
    SpanSplits(Itoa(lo), Itoa(hi), sep, d);
    PortIs(lo);
    PortIs(hi);
  }

  /** An entry that is not empty reads as its bounds, if these are ports in order. */
  lemma {:induction false} EntryReads(e: Entry, s: string)
    requires Wellformed(e) && !e.Nothing? && s == Written(e)
    ensures ParseSpec(s) == if InBounds(e) then Some(BoundOf(e)) else None
  {
    match e
    case Port(n) =>
      PortIs(n);
      DigitsHoldNone(Itoa(n));
    case Span(lo, hi, sep) => SpanReads(lo, hi, sep, s);
  }

  lemma {:induction false} EntryIsTrimmed(e: Entry, s: string)
    requires s == Written(e)
    ensures Trim(s) == s && (s == "" <==> e.Nothing?)
  {
    if e.Span? {
      assert s[0] == Itoa(e.lo)[0] && s[|s| - 1] == Itoa(e.hi)[|Itoa(e.hi)| - 1];
    }
    TrimTrimmed(s);
  }

  /** What iptables is given for an entry: a port alone, or first and last port with a colon. */
  lemma {:induction false} DportText(e: Entry)
    requires Wellformed(e) && !e.Nothing? && InBounds(e)
    ensures SpecText(Written(e)) == Some(if e.Port? then Itoa(e.n) else Itoa(e.lo) + ":" + Itoa(e.hi))
  {
    EntryReads(e, Written(e));
    match e
    case Port(n) => DigitsHoldNone(Itoa(n));
    case Span(lo, hi, sep) => SpanSplits(Itoa(lo), Itoa(hi), sep, Written(e));
  }

  // ---- Lists of entries ------------------------------------------------------------------

  /** A list of entries without spaces reads as the bounds of its entries, if each of them does. */
  lemma {:induction false} PartsRead(parts: seq<string>, es: seq<Entry>)
    requires |parts| == |es| && forall i :: 0 <= i < |es| ==> Wellformed(es[i]) && parts[i] == Written(es[i])
    ensures ParseParts(parts) == if AllInBounds(es) then Some(Bounds(es)) else None
    decreases |parts|
  {
    if parts != [] {
      assert forall i :: 0 <= i < |es| - 1 ==> es[1..][i] == es[i + 1] && parts[1..][i] == parts[i + 1];
      PartsRead(parts[1..], es[1..]);
      PartRead(parts, es[0], es[1..]);
      assert AllInBounds(es) <==> InBounds(es[0]) && AllInBounds(es[1..]);
    }
  }

  lemma {:induction false} PartRead(parts: seq<string>, e: Entry, tail: seq<Entry>)
    requires parts != [] && Wellformed(e) && parts[0] == Written(e)
    requires ParseParts(parts[1..]) == if AllInBounds(tail) then Some(Bounds(tail)) else None
    ensures ParseParts(parts) ==
            if InBounds(e) && AllInBounds(tail) then Some((if e.Nothing? then [] else [BoundOf(e)]) + Bounds(tail))
              else None
  {
    EntryIsTrimmed(e, parts[0]);
    if e.Nothing? {
      assert [] + Bounds(tail) == Bounds(tail);
    } else {
      EntryReads(e, parts[0]);
    }
  }

  // ---- Spaces ----------------------------------------------------------------------------

  lemma {:induction false} SquashConcat(a: string, b: string)
    ensures Squash(a + b) == Squash(a) + Squash(b)
  {
    if a == "" {
      assert a + b == b;
    } else {
      assert (a + b)[1..] == a[1..] + b;
      SquashConcat(a[1..], b);
    }
  }

  lemma {:induction false} SquashBlanks(a: string)
    requires forall c :: c in a ==> c == ' '
    ensures Squash(a) == ""
  {
    if a != "" {
      assert a[0] in a && forall c :: c in a[1..] ==> c in a;
      SquashBlanks(a[1..]);
    }
  }

  /** Characters of a list: digits, separators and spaces. */
  predicate ListChars(s: string) {
    forall c :: c in s ==> IsDigit(c) || c == '-' || c == ':' || c == ',' || c == ' '
  }

  lemma {:induction false} TrimThenSquash(s: string)
    requires ListChars(s)
    ensures Squash(Trim(s)) == Squash(s) && ListChars(Trim(s))
  {
    var a, b := TrimParts(s);
    var t := Trim(s);
    assert forall c :: c in a || c in b || c in t ==> c in s;
    SquashBlanks(a);
    SquashBlanks(b);
    SquashConcat(a + t, b);
    SquashConcat(a, t);
  }

  lemma {:induction false} NoLabel(t: string, lower: string)
    requires ListChars(t) && lower == Lower(t) && t != ""
    ensures !MeansAll(lower) && !StartsWith(lower, "ports:") && !StartsWith(lower, "port:")
  {
    assert t[0] in t && lower[0] == t[0];
    PrefixAt(lower, "ports:", 0);
    PrefixAt(lower, "port:", 0);
  }

  lemma {:induction false} ListNormalizes(s: string)
    requires ListChars(s)
    ensures Normalize(s) == Squash(s)
  {
    TrimThenSquash(s);
    if Trim(s) != "" {
      NoLabel(Trim(s), Lower(Trim(s)));
    }
  }

  function Squashed(texts: seq<string>): (r: seq<string>)
    ensures |r| == |texts|
  {
    if texts == [] then [] else [Squash(texts[0])] + Squashed(texts[1..])
  }

  lemma {:induction false} SquashedAt(texts: seq<string>, i: nat)
    requires i < |texts|
    ensures Squashed(texts)[i] == Squash(texts[i])
    decreases |texts|
  {
    if i > 0 {
      SquashedAt(texts[1..], i - 1);
    }
  }

  lemma {:induction false} SquashJoin(texts: seq<string>)
    ensures Squash(Join(texts, ",")) == Join(Squashed(texts), ",")
  {
    if |texts| > 1 {
      SquashJoin(texts[1..]);
      SquashConcat(texts[0] + ",", Join(texts[1..], ","));
      SquashConcat(texts[0], ",");
      assert Squashed(texts)[1..] == Squashed(texts[1..]);
    }
  }

  lemma {:induction false} SquashKeeps(s: string, c: char)
    ensures c in s ==> c == ' ' || c in Squash(s)
  {
  }

  lemma {:induction false} JoinChars(texts: seq<string>)
    requires forall i :: 0 <= i < |texts| ==> ListChars(texts[i])
    ensures ListChars(Join(texts, ","))
  {
    if |texts| > 1 {
      JoinChars(texts[1..]);
    }
  }

  lemma {:induction false} EntryChars(text: string, e: Entry)
    requires Wellformed(e) && Squash(text) == Written(e)
    ensures ListChars(text) && ',' !in Squash(text)
  {
    forall c | c in text ensures IsDigit(c) || c == '-' || c == ':' || c == ',' || c == ' ' {
      SquashKeeps(text, c);
    }
  }

  /**
   * A list of ports and ranges, each spelled with '-' or ':', with spaces anywhere and empty entries, reads as exactly
   * their bounds in order; one port outside 1 to 65535 or range upside down, or no entry at all, makes it no list.
   */
  lemma {:induction false} ListReads(texts: seq<string>, es: seq<Entry>)
    requires Writes(texts, es)
    ensures ParseSpecs(Join(texts, ",")) == if AllInBounds(es) && Bounds(es) != [] then Some(Bounds(es)) else None
  {
    var bare := Squashed(texts);
    forall i | 0 <= i < |texts| ensures ListChars(texts[i]) && ',' !in bare[i] && bare[i] == Written(es[i]) {
      SquashedAt(texts, i);
      EntryChars(texts[i], es[i]);
    }
    JoinChars(texts);
    ListNormalizes(Join(texts, ","));
    SquashJoin(texts);
    if texts != [] {
      SplitJoin(bare, ',');
      assert [','] == ",";
      PartsRead(bare, es);
      NothingReads(Join(bare, ","), bare, es);
    }
  }

  lemma {:induction false} NothingReads(n: string, bare: seq<string>, es: seq<Entry>)
    requires bare != [] && n == Join(bare, ",") && |bare| == |es|
    requires forall i :: 0 <= i < |es| ==> bare[i] == Written(es[i])
    ensures n == "" ==> Bounds(es) == []
  {
    if n == "" {
      assert |bare| == 1;
      EntryIsTrimmed(es[0], bare[0]);
      assert es == [Nothing] && es[1..] == [];
    }
  }

  /** The ports an entry stands for. */
  predicate Admits(e: Entry, port: nat) {
    match e
    case Nothing => false
    case Port(n) => port == n
    case Span(lo, hi, _) => lo <= port <= hi
  }

  predicate AdmittedBy(es: seq<Entry>, port: nat) {
    exists i :: 0 <= i < |es| && Admits(es[i], port)
  }

  lemma AdmittedFirst(es: seq<Entry>, port: nat)
    requires es != []
    ensures AdmittedBy(es, port) <==> Admits(es[0], port) || AdmittedBy(es[1..], port)
  {
    if i :| 0 <= i < |es| && Admits(es[i], port) {
      assert i > 0 ==> es[1..][i - 1] == es[i];
    }
    if i :| 0 <= i < |es[1..]| && Admits(es[1..][i], port) {
      assert es[i + 1] == es[1..][i];
    }
  }

  lemma {:induction false} AdmittedIff(es: seq<Entry>, port: nat)
    ensures (exists i :: 0 <= i < |Bounds(es)| && Bounds(es)[i].Has(port)) <==> AdmittedBy(es, port)
  {
    if es != [] {
      var head := if es[0].Nothing? then [] else [BoundOf(es[0])];
      AdmittedIff(es[1..], port);
      EitherHalf(head, Bounds(es[1..]), port);
      AdmittedFirst(es, port);
      HeadAdmits(es[0], head, port);
      assert Bounds(es) == head + Bounds(es[1..]);
    }
  }

  lemma HeadAdmits(e: Entry, head: seq<PortRange>, port: nat)
    requires head == if e.Nothing? then [] else [BoundOf(e)]
    ensures (exists i :: 0 <= i < |head| && head[i].Has(port)) <==> Admits(e, port)
  {
    if !e.Nothing? {
      assert head[0] == BoundOf(e);
    }
  }

  lemma EitherHalf(a: seq<PortRange>, b: seq<PortRange>, port: nat)
    ensures (exists i :: 0 <= i < |a + b| && (a + b)[i].Has(port)) <==>
            (exists i :: 0 <= i < |a| && a[i].Has(port)) || (exists i :: 0 <= i < |b| && b[i].Has(port))
  {
    if i :| 0 <= i < |b| && b[i].Has(port) {
      assert (a + b)[|a| + i] == b[i];
    }
    if i :| 0 <= i < |a| && a[i].Has(port) {
      assert (a + b)[i] == a[i];
    }
  }

  // ---- Labels ----------------------------------------------------------------------------

  lemma {:induction false} MarkedStarts(mark: string, val: string, lower: string)
    requires lower == Lower(mark + val) && (Lower(mark) == "port:" || Lower(mark) == "ports:")
    ensures StartsWith(lower, Lower(mark)) && !MeansAll(lower)
    ensures Lower(mark) == "port:" ==> !StartsWith(lower, "ports:")
  {
    assert lower[..|mark|] == Lower(mark);
    assert lower[0] == 'p';
    if Lower(mark) == "port:" {
      assert lower[4] == Lower(mark)[4];
      PrefixAt(lower, "ports:", 4);
    }
  }

  lemma {:induction false} MarkIsTrimmed(mark: string, low: string)
    requires Lower(mark) == low && (low == "port:" || low == "ports:")
    ensures mark != "" && Trimmed(mark)
  {
    assert LowerChar(mark[0]) == low[0] && LowerChar(mark[|mark| - 1]) == low[|low| - 1];
  }

  lemma {:induction false} MarkStripped(mark: string, val: string)
    requires (Lower(mark) == "port:" || Lower(mark) == "ports:") && Trimmed(mark + val)
    ensures NormalizeTrimmed(mark + val) == NormalizeTrimmed(Trim(val))
  {
    MarkedStarts(mark, val, Lower(mark + val));
    assert (mark + val)[|mark|..] == val;
  }

  /** A label, in any case and with white space on either side, does not count. */
  lemma {:induction false} LabelIsDropped(a: string, mark: string, rest: string)
    requires AllSpace(a) && (Lower(mark) == "port:" || Lower(mark) == "ports:")
    ensures Normalize(a + (mark + rest)) == Normalize(rest)
  {
    TrimLead(a, mark + rest);
    MarkIsTrimmed(mark, Lower(mark));
    var val := TrimTail(mark, rest);
    MarkStripped(mark, val);
  }

  /** Every port is written as nothing, "all" or "all ports", in any case and with white space around it. */
  lemma {:induction false} AllMeansEvery(a: string, word: string, b: string)
    requires AllSpace(a) && AllSpace(b) && Lower(word) in {"", "all", "all ports"}
    ensures Normalize(a + word + b) == ""
  {
    if word != "" {
      assert LowerChar(word[0]) == Lower(word)[0] && LowerChar(word[|word| - 1]) == Lower(word)[|word| - 1];
    }
    TrimPad(a, word, b);
  }
}
