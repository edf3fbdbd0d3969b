/** ASCII text as the Go `strings`, `strconv` and `bufio` calls of the source see it. */
module Text {
  import opened Options

  // ---- White space -------------------------------------------------------

  predicate IsSpace(c: char) {
    c == ' ' || '\t' <= c <= '\r'
  }

  predicate AllSpace(s: string) {
    forall i :: 0 <= i < |s| ==> IsSpace(s[i])
  }

  /** Nothing for `Trim` to remove. */
  predicate Trimmed(s: string) {
    s == "" || (!IsSpace(s[0]) && !IsSpace(s[|s| - 1]))
  }

  function TrimLeft(s: string): (r: string)
    ensures |r| <= |s|
    ensures r != "" ==> !IsSpace(r[0])
  {
    if s != "" && IsSpace(s[0]) then TrimLeft(s[1..]) else s
  }

  function TrimRight(s: string): (r: string)
    ensures |r| <= |s|
    ensures r != "" ==> r[0] == s[0] && !IsSpace(r[|r| - 1])
  {
    if s != "" && IsSpace(s[|s| - 1]) then TrimRight(s[..|s| - 1]) else s
  }

  /** strings.TrimSpace */
  function Trim(s: string): (r: string)
    ensures Trimmed(r)
  {
    TrimRight(TrimLeft(s))
  }

  lemma {:induction false} TrimLeftPad(a: string, v: string)
    requires AllSpace(a)
    requires v == "" || !IsSpace(v[0])
    ensures TrimLeft(a + v) == v
  {
    if a == "" {
      assert a + v == v;
    } else {
      assert (a + v)[1..] == a[1..] + v;
      TrimLeftPad(a[1..], v);
    }
  }

  lemma {:induction false} TrimRightPad(v: string, b: string)
    requires AllSpace(b)
    requires v == "" || !IsSpace(v[|v| - 1])
    ensures TrimRight(v + b) == v
  {
    if b == "" {
      assert v + b == v;
    } else {
      assert (v + b)[..|v + b| - 1] == v + b[..|b| - 1];
      TrimRightPad(v, b[..|b| - 1]);
    }
  }

  /** Trimming removes exactly the white space around a trimmed text. */
  lemma TrimPad(a: string, v: string, b: string)
    requires AllSpace(a) && AllSpace(b) && Trimmed(v)
    ensures Trim(a + v + b) == v
  {
    if v == "" {
      TrimLeftPad(a + b, "");
      assert a + v + b == a + b + "";
    } else {
      assert a + v + b == a + (v + b);
      TrimLeftPad(a, v + b);
      TrimRightPad(v, b);
    }
  }

  lemma {:induction false} LeftPart(v: string) returns (a: string)
    ensures AllSpace(a) && v == a + TrimLeft(v)
  {
    a := "";
    if v != "" && IsSpace(v[0]) {
      var rest := LeftPart(v[1..]);
      a := [v[0]] + rest;
    }
  }

  lemma {:induction false} RightPart(v: string) returns (b: string)
    ensures AllSpace(b) && v == TrimRight(v) + b
  {
    b := "";
    if v != "" && IsSpace(v[|v| - 1]) {
      var front, last := v[..|v| - 1], [v[|v| - 1]];
      var rest := RightPart(front);
      b := rest + last;
      assert v == front + last;
    }
  }

  /** What trimming takes away. */
  lemma TrimParts(v: string) returns (a: string, b: string)
    ensures AllSpace(a) && AllSpace(b) && v == a + Trim(v) + b
  {
    a := LeftPart(v);
    b := RightPart(TrimLeft(v));
  }

  lemma TrimTrimmed(v: string)
    requires Trimmed(v)
    ensures Trim(v) == v
  {
    TrimPad("", v, "");
    assert "" + v + "" == v;
  }

  lemma TrimKeepsFirst(s: string)
    requires s != "" && !IsSpace(s[0])
    ensures Trim(s) != "" && Trim(s)[0] == s[0]
  {
    assert TrimLeft(s) == s;
    RightKeepsFirst(s);
  }

  lemma {:induction false} RightKeepsFirst(s: string)
    requires s != "" && !IsSpace(s[0])
    ensures TrimRight(s) != "" && TrimRight(s)[0] == s[0]
  {
    if |s| > 1 && IsSpace(s[|s| - 1]) {
      RightKeepsFirst(s[..|s| - 1]);
    }
  }

  lemma TrimAround(core: string, pad: string)
    requires Trimmed(core) && AllSpace(pad)
    ensures Trim(core + pad) == core
  {
    TrimPad("", core, pad);
    assert "" + core + pad == core + pad;
  }

  lemma TrimBefore(pad: string, w: string)
    requires Trimmed(w) && AllSpace(pad)
    ensures Trim(pad + w) == w
  {
    TrimPad(pad, w, "");
    assert pad + w + "" == pad + w;
  }

  lemma AssocLast(head: string, a: string, w: string, b: string)
    ensures head + (a + w + b) == head + (a + w) + b
  {
  }

  /** Trimming a line trims what its head is followed by. */
  lemma TrimTail(head: string, v: string) returns (val: string)
    requires head != "" && Trimmed(head)
    ensures Trim(head + v) == head + val && Trim(val) == Trim(v) && val <= v
  {
    var a, b := TrimParts(v);
    var w := Trim(v);
    if w == "" {
      val := "";
      TrimAround(head, v);
    } else {
      val := a + w;
      AssocLast(head, a, w, b);
      TrimAround(head + (a + w), b);
      TrimBefore(a, w);
    }
  }

  lemma TrimLead(a: string, s: string)
    requires AllSpace(a)
    ensures Trim(a + s) == Trim(s)
  {
    var p, q := TrimParts(s);
    TrimPad(a + p, Trim(s), q);
    AssocLead(a, p, Trim(s), q);
  }

  lemma AssocLead(a: string, p: string, t: string, q: string)
    ensures a + (p + t + q) == a + p + t + q
  {
  }

  // ---- Case --------------------------------------------------------------

  function LowerChar(c: char): char {
    if 'A' <= c <= 'Z' then (c as int - 'A' as int + 'a' as int) as char else c
  }

  /** strings.ToLower on ASCII; two texts are EqualFold when this agrees. */
  function Lower(s: string): (r: string)
    ensures |r| == |s|
    ensures forall i :: 0 <= i < |s| ==> r[i] == LowerChar(s[i])
  {
    if s == "" then "" else [LowerChar(s[0])] + Lower(s[1..])
  }

  lemma {:induction false} LowerIs(name: string, low: string)
    requires |name| == |low| && forall i :: 0 <= i < |low| ==> LowerChar(name[i]) == low[i]
    ensures Lower(name) == low
  {
  }

  predicate StartsWith(s: string, prefix: string) {
    |prefix| <= |s| && s[..|prefix|] == prefix
  }

  lemma PrefixAt(s: string, prefix: string, i: nat)
    requires i < |prefix|
    ensures StartsWith(s, prefix) ==> i < |s| && s[i] == prefix[i]
  {
    assert |prefix| <= |s| ==> s[..|prefix|][i] == s[i];
  }

  // ---- Splitting and joining ----------------------------------------------

  /** strings.Split for a one-character separator. */
  function Split(s: string, sep: char): (parts: seq<string>)
    ensures |parts| >= 1
    ensures forall i :: 0 <= i < |parts| ==> sep !in parts[i]
  {
    if s == "" then [""]
    else
      var rest := Split(s[1..], sep);
      if s[0] == sep then [""] + rest else [[s[0]] + rest[0]] + rest[1..]
  }

  /** strings.Join */
  function Join(parts: seq<string>, sep: string): string {
    if |parts| == 0 then ""
    else if |parts| == 1 then parts[0]
    else parts[0] + sep + Join(parts[1..], sep)
  }

  lemma {:induction false} SplitNone(s: string, sep: char)
    requires sep !in s
    ensures Split(s, sep) == [s]
  {
    if s != "" {
      SplitNone(s[1..], sep);
      assert [s[0]] + s[1..] == s;
    }
  }

  lemma {:induction false} SplitCons(a: string, sep: char, b: string)
    requires sep !in a
    ensures Split(a + [sep] + b, sep) == [a] + Split(b, sep)
  {
    var s := a + [sep] + b;
    if a == "" {
      assert s[1..] == b;
    } else {
      assert s[1..] == a[1..] + [sep] + b;
      SplitCons(a[1..], sep, b);
      assert [a[0]] + a[1..] == a;
    }
  }

  /** Splitting undoes joining when no part holds the separator. */
  lemma {:induction false} SplitJoin(parts: seq<string>, sep: char)
    requires |parts| >= 1
    requires forall i :: 0 <= i < |parts| ==> sep !in parts[i]
    ensures Split(Join(parts, [sep]), sep) == parts
  {
    if |parts| == 1 {
      SplitNone(parts[0], sep);
    } else {
      var rest := parts[1..];
      assert forall i :: 0 <= i < |rest| ==> rest[i] == parts[i + 1];
      SplitJoin(rest, sep);
      SplitCons(parts[0], sep, Join(rest, [sep]));
      assert [parts[0]] + rest == parts;
    }
  }

  lemma {:induction false} JoinMore(items: seq<string>, x: string, sep: string)
    requires items != []
    ensures Join(items + [x], sep) == Join(items, sep) + (sep + x)
  {
    if |items| == 1 {
      assert (items + [x])[1..] == [x];
    } else {
      assert (items + [x])[1..] == items[1..] + [x];
      JoinMore(items[1..], x, sep);
    }
  }

  /** Position of the first occurrence of c, or the length. */
  function Find(s: string, c: char): (i: nat)
    ensures i <= |s|
    ensures c !in s[..i]
    ensures i < |s| ==> s[i] == c
    ensures i == |s| <==> c !in s
  {
    if s == "" then 0 else if s[0] == c then 0 else 1 + Find(s[1..], c)
  }

  lemma {:induction false} FindAt(a: string, c: char, b: string)
    requires c !in a
    ensures Find(a + [c] + b, c) == |a|
  {
    if a != "" {
      assert (a + [c] + b)[1..] == a[1..] + [c] + b;
      FindAt(a[1..], c, b);
    }
  }

  // ---- Decimal numbers ----------------------------------------------------

  predicate IsDigit(c: char) {
    '0' <= c <= '9'
  }

  predicate AllDigits(s: string) {
    forall i :: 0 <= i < |s| ==> IsDigit(s[i])
  }

  function DigitChar(d: nat): (c: char)
    requires d < 10
    ensures IsDigit(c)
  {
    (d + '0' as int) as char
  }

  /** strconv.Itoa on naturals. */
  function Itoa(n: nat): (s: string)
    ensures s != "" && AllDigits(s)
  {
    if n < 10 then [DigitChar(n)] else Itoa(n / 10) + [DigitChar(n % 10)]
  }

  function DigitsValue(s: string): (n: nat)
    requires AllDigits(s)
  {
    if s == "" then 0 else 10 * DigitsValue(s[..|s| - 1]) + (s[|s| - 1] as int - '0' as int)
  }

  /** strconv.Atoi over mathematical integers: an optional sign, then digits only. */
  function Atoi(s: string): Option<int> {
    if s != "" && (s[0] == '-' || s[0] == '+') then
      if |s| > 1 && AllDigits(s[1..]) then
        var v: int := DigitsValue(s[1..]);
        Some(if s[0] == '-' then -v else v)
      else None
    else if s != "" && AllDigits(s) then Some(DigitsValue(s))
    else None
  }

  lemma {:induction false} DigitsItoa(n: nat)
    ensures DigitsValue(Itoa(n)) == n
  {
    if n >= 10 {
      DigitsItoa(n / 10);
      var s := Itoa(n);
      assert s[..|s| - 1] == Itoa(n / 10);
    }
  }

  /** Reading a printed number gives the number back. */
  lemma {:induction false} AtoiItoa(n: nat)
    ensures Atoi(Itoa(n)) == Some(n)
  {
    DigitsItoa(n);
  }
}
