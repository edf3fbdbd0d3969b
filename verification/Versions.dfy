/** Comparing versions (client/internal/update/manifest.go). */
module Versions {
  import opened Options
  import opened Text

  function TrimV(v: string): string {
    if v != "" && v[0] == 'v' then v[1..] else v
  }

  /** Up to the first '-' or '+'. */
  function Core(v: string): string {
    if v == "" || v[0] == '-' || v[0] == '+' then "" else [v[0]] + Core(v[1..])
  }

  /** A part that is no number counts as 0. */
  function Numbers(parts: seq<string>): (r: seq<int>)
    ensures |r| == |parts|
  {
    if parts == [] then [] else [Atoi(parts[0]).GetOr(0)] + Numbers(parts[1..])
  }

  function Components(v: string): seq<int> {
    Numbers(Split(Core(TrimV(Trim(v))), '.'))
  }

  /** Missing components are 0. */
  function At(ns: seq<int>, i: nat): int {
    if i < |ns| then ns[i] else 0
  }

  /** k is the first component that differs, and it is greater in a. */
  predicate GreaterAt(a: seq<int>, b: seq<int>, k: nat) {
    At(a, k) > At(b, k) && forall j :: 0 <= j < k ==> At(a, j) == At(b, j)
  }

  ghost predicate Greater(a: seq<int>, b: seq<int>) {
    exists k: nat :: GreaterAt(a, b, k)
  }

  method Newer(va: string, vb: string) returns (r: bool)
    ensures r <==> Greater(Components(va), Components(vb))
  {
    var a, b := Components(va), Components(vb);
    r := CompareLoop(a, b);
  }

  method CompareLoop(a: seq<int>, b: seq<int>) returns (r: bool)
    ensures r <==> Greater(a, b)
  {
    var i: nat := 0;
    while i < |a| || i < |b|
      invariant forall j :: 0 <= j < i ==> At(a, j) == At(b, j)
      decreases |a| + |b| - i
    {
      var av, bv := 0, 0;
      if i < |a| {
        av := a[i];
      }
      if i < |b| {
        bv := b[i];
      }
      if av != bv {
        if av > bv {
          assert GreaterAt(a, b, i);
        } else {
          assert GreaterAt(b, a, i);
        }
        return av > bv;
      }
      i := i + 1;
    }
    r := false;
    forall k: nat ensures !GreaterAt(a, b, k) {
    }
  }

  // ---- A strict weak order ------------------------------------------------------------

  ghost predicate Same(a: seq<int>, b: seq<int>) {
    forall i: nat :: At(a, i) == At(b, i)
  }

  lemma Transitive(a: seq<int>, b: seq<int>, c: seq<int>)
    requires Greater(a, b) && Greater(b, c)
    ensures Greater(a, c)
  {
    var k: nat :| GreaterAt(a, b, k);
    var l: nat :| GreaterAt(b, c, l);
    assert GreaterAt(a, c, if k <= l then k else l);
  }

  /** The component that decides, looking from i on, or the common end. */
  function Differ(a: seq<int>, b: seq<int>, i: nat): (k: nat)
    requires forall j :: 0 <= j < i ==> At(a, j) == At(b, j)
    ensures forall j :: 0 <= j < k ==> At(a, j) == At(b, j)
    ensures At(a, k) != At(b, k) || (k >= |a| && k >= |b|)
    decreases |a| + |b| - i
  {
    if (i >= |a| && i >= |b|) || At(a, i) != At(b, i) then i else Differ(a, b, i + 1)
  }

  /** Exactly one: newer, older, or the same up to trailing zeros. */
  lemma Comparable(a: seq<int>, b: seq<int>)
    ensures Greater(a, b) || Greater(b, a) || Same(a, b)
    ensures Same(a, b) ==> !Greater(a, b) && !Greater(b, a)
    ensures !(Greater(a, b) && Greater(b, a))
  {
    var k := Differ(a, b, 0);
    if At(a, k) > At(b, k) {
      assert GreaterAt(a, b, k);
    } else if At(a, k) < At(b, k) {
      assert GreaterAt(b, a, k);
    }
  }

  /**
   * Versions of the same number of components compare like dictionary entries; a longer one is newer if it adds to it.
   */
  lemma GreaterIff(a: seq<int>, b: seq<int>)
    requires |a| == |b|
    ensures Greater(a, b) <==> exists k :: 0 <= k < |a| && a[k] > b[k] && a[..k] == b[..k]
  {
    if Greater(a, b) {
      var k: nat :| GreaterAt(a, b, k);
      assert forall j :: 0 <= j < k ==> At(a, j) == a[j] && At(b, j) == b[j];
      assert a[k] > b[k] && a[..k] == b[..k];
    }
    if k :| 0 <= k < |a| && a[k] > b[k] && a[..k] == b[..k] {
      forall j | 0 <= j < k ensures At(a, j) == At(b, j) {
        assert a[j] == a[..k][j] && b[j] == b[..k][j];
      }
      assert GreaterAt(a, b, k);
    }
  }

  /** A component that is missing in one of them counts as 0. */
  lemma LongerIsNewerIff(a: seq<int>, x: int)
    ensures Greater(a + [x], a) <==> x > 0
    ensures Greater(a, a + [x]) <==> x < 0
  {
    if x > 0 {
      assert GreaterAt(a + [x], a, |a|);
    } else if x < 0 {
      assert GreaterAt(a, a + [x], |a|);
    }
  }

  // ---- What a version text stands for -------------------------------------------------

  function Decimals(ns: seq<nat>): (r: seq<string>)
    ensures |r| == |ns|
  {
    if ns == [] then [] else [Itoa(ns[0])] + Decimals(ns[1..])
  }

  lemma {:induction false} DecimalsRead(ns: seq<nat>)
    ensures Numbers(Decimals(ns)) == ns
  {
    if ns != [] {
      AtoiItoa(ns[0]);
      DecimalsRead(ns[1..]);
    }
  }

  /** A part that is empty or holds anything but digits behind a sign is no number. */
  lemma {:induction false} OtherPartsAreZero(parts: seq<string>, i: nat)
    requires i < |parts| && (parts[i] == "" || exists k :: 0 < k < |parts[i]| && !IsDigit(parts[i][k]))
    ensures Numbers(parts)[i] == 0
  {
    if i > 0 {
      OtherPartsAreZero(parts[1..], i - 1);
    }
  }

  predicate DottedDigits(s: string) {
    forall i :: 0 <= i < |s| ==> IsDigit(s[i]) || s[i] == '.'
  }

  lemma {:induction false} DecimalsShape(ns: seq<nat>)
    requires ns != []
    ensures var j := Join(Decimals(ns), ".");
            j != "" && DottedDigits(j) && IsDigit(j[0]) && IsDigit(j[|j| - 1]) && Split(j, '.') == Decimals(ns)
  {
    DecimalsJoined(ns);
    DecimalsUndotted(ns);
    SplitJoin(Decimals(ns), '.');
    assert ['.'] == ".";
  }

  lemma {:induction false} DecimalsUndotted(ns: seq<nat>)
    ensures forall i :: 0 <= i < |ns| ==> '.' !in Decimals(ns)[i]
  {
    if ns != [] {
      DecimalsUndotted(ns[1..]);
      assert AllDigits(Itoa(ns[0]));
    }
  }

  lemma {:induction false} DecimalsJoined(ns: seq<nat>)
    requires ns != []
    ensures var j := Join(Decimals(ns), ".");
            j != "" && DottedDigits(j) && IsDigit(j[0]) && IsDigit(j[|j| - 1])
  {
    if |ns| > 1 {
      DecimalsJoined(ns[1..]);
      JoinedMore(Itoa(ns[0]), Join(Decimals(ns[1..]), "."), Join(Decimals(ns), "."));
    }
  }

  lemma JoinedMore(head: string, tail: string, j: string)
    requires head != "" && AllDigits(head) && j == head + "." + tail
    requires tail != "" && DottedDigits(tail) && IsDigit(tail[|tail| - 1])
    ensures DottedDigits(j) && IsDigit(j[0]) && IsDigit(j[|j| - 1])
  {
  }

  predicate Suffix(y: string) {
    y == "" || y[0] == '-' || y[0] == '+'
  }

  lemma {:induction false} CoreEnds(x: string, y: string)
    requires DottedDigits(x) && Suffix(y)
    ensures Core(x + y) == x
  {
    if x == "" {
      assert x + y == y;
    } else {
      assert (x + y)[1..] == x[1..] + y;
      CoreEnds(x[1..], y);
    }
  }

  /** White space before and behind goes; a suffix stays, if only its end is cut. */
  lemma CoreTrimmed(a: string, head: string, rest: string) returns (val: string)
    requires AllSpace(a) && head != "" && Trimmed(head) && (AllSpace(rest) || Suffix(rest))
    ensures Trim(a + (head + rest)) == head + val && Suffix(val)
  {
    TrimLead(a, head + rest);
    if AllSpace(rest) {
      val := "";
      TrimAround(head, rest);
      assert head + "" == head;
    } else {
      val := TrimTail(head, rest);
    }
  }

  lemma HeadIsTrimmed(v: string, j: string)
    requires (v == "" || v == "v") && j != "" && IsDigit(j[0]) && IsDigit(j[|j| - 1])
    ensures v + j != "" && Trimmed(v + j)
  {
  }

  /**
   * Decimal numbers with dots between them are their numbers, whatever white space is around them, with or without a
   * "v" before and anything from a '-' or '+' on behind.
   */
  lemma {:induction false} ComponentsAre(a: string, v: string, ns: seq<nat>, rest: string)
    requires AllSpace(a) && (v == "" || v == "v") && ns != []
    requires AllSpace(rest) || rest[0] == '-' || rest[0] == '+'
    ensures Components(a + (v + Join(Decimals(ns), ".") + rest)) == ns
  {
    var j := Join(Decimals(ns), ".");
    DecimalsShape(ns);
    DecimalsRead(ns);
    HeadIsTrimmed(v, j);
    var val := CoreTrimmed(a, v + j, rest);
    CoreOf(v, j, val);
  }

  lemma CoreOf(v: string, j: string, val: string)
    requires (v == "" || v == "v") && j != "" && DottedDigits(j) && Suffix(val)
    ensures Core(TrimV(v + j + val)) == j
  {
    CoreEnds(j, val);
    assert v == "" ==> v + j + val == j + val && (j + val)[0] == j[0];
    assert v == "v" ==> (v + j + val)[1..] == j + val;
  }
}
