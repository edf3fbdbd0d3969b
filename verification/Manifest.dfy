/** Signed update manifests (client/internal/update/manifest.go). */
module Manifest {
  import opened Text

  /** The signed fields. */
  datatype Manifest = Manifest(platform: string, version: string, fileName: string, sha256: string, size: int,
    mandatory: bool)

  const TAG := "proidentity-access-update-v1"
  const MAX_SIZE := 0x2000_0000

  // ---- Validation ------------------------------------------------------------------

  predicate Alnum(c: char) {
    'a' <= c <= 'z' || 'A' <= c <= 'Z' || IsDigit(c)
  }

  /** \d+\.\d+\.\d+ */
  predicate VersionShape(v: string) {
    var parts := Split(v, '.');
    |parts| == 3 && forall i :: 0 <= i < 3 ==> parts[i] != "" && AllDigits(parts[i])
  }

  /** [A-Za-z0-9][A-Za-z0-9._-]{0,127} */
  predicate FileNameShape(f: string) {
    1 <= |f| <= 128 && Alnum(f[0]) && forall i ::
      0 <= i < |f| ==> Alnum(f[i]) || f[i] == '.' || f[i] == '_' || f[i] == '-'
  }

  predicate TwoDots(f: string) {
    exists i :: 0 <= i && i + 1 < |f| && f[i] == '.' && f[i + 1] == '.'
  }

  predicate HashShape(h: string) {
    |h| == 64 && forall i :: 0 <= i < 64 ==> IsDigit(h[i]) || 'a' <= h[i] <= 'f'
  }

  /** After the last dot; the whole name if there is none. */
  function Extension(f: string): string {
    var parts := Split(f, '.');
    parts[|parts| - 1]
  }

  function WantedExtension(platform: string): string {
    var os := Split(platform, '-')[0];
    if os == "windows" then "msi" else if os == "darwin" then "pkg" else ""
  }

  datatype Verdict = Fine | BadVersion | BadFileName | BadHash | BadSize | BadPackage

  function Validate(m: Manifest): Verdict {
    if !VersionShape(m.version) then BadVersion
    else if !FileNameShape(m.fileName) || TwoDots(m.fileName) then BadFileName
    else if !HashShape(m.sha256) then BadHash
    else if m.size <= 0 || m.size > MAX_SIZE then BadSize
    else if WantedExtension(m.platform) == "" || Lower(Extension(m.fileName)) != WantedExtension(m.platform)
      then BadPackage
    else Fine
  }

  // ---- What is signed -----------------------------------------------------------------

  function FormatBool(b: bool): string {
    if b then "true" else "false"
  }

  function FormatInt(n: int): string {
    if n >= 0 then Itoa(n) else "-" + Itoa(-n)
  }

  function Fields(m: Manifest): seq<string> {
    [TAG, m.platform, m.version, m.fileName, Lower(m.sha256), FormatInt(m.size), FormatBool(m.mandatory)]
  }

  function SigningPayload(m: Manifest): string {
    Join(Fields(m), "\n")
  }

  /** The signed bytes are seven lines, without a break after the last. */
  lemma {:induction false} PayloadText(m: Manifest)
    ensures SigningPayload(m) ==
            "proidentity-access-update-v1" + "\n" + (m.platform + "\n" + (m.version + "\n" + (m.fileName + "\n" +
            (Lower(m.sha256) + "\n" + ((if m.size < 0 then "-" + Itoa(-m.size) else Itoa(m.size)) + "\n" +
             if m.mandatory then "true" else "false")))))
  {
    var f := Fields(m);
    var f4, f3, f2 := f[4..], f[3..], f[2..];
    JoinFirst(f[4], [f[5], f[6]], "\n", f4);
    JoinFirst(f[3], f4, "\n", f3);
    JoinFirst(f[2], f3, "\n", f2);
    JoinFirst(f[1], f2, "\n", f[1..]);
    JoinFirst(f[0], f[1..], "\n", f);
    JoinFirst(f[5], [f[6]], "\n", [f[5], f[6]]);
  }

  /** Position of the last line break, or -1. */
  function LastBreak(s: string): int {
    if s == "" then -1 else if s[|s| - 1] == '\n' then |s| - 1 else LastBreak(s[..|s| - 1])
  }

  lemma {:induction false} LastBreakAt(a: string, x: string)
    requires '\n' !in x
    ensures LastBreak(a + "\n" + x) == |a|
  {
    var s := a + "\n" + x;
    if x != "" {
      assert s[..|s| - 1] == a + "\n" + x[..|x| - 1];
      LastBreakAt(a, x[..|x| - 1]);
    }
  }

  /** a, a line break, x: both are found again if x has no line break. */
  lemma LastLine(a: string, x: string, b: string, y: string)
    requires '\n' !in x && '\n' !in y && a + ("\n" + x) == b + ("\n" + y)
    ensures a == b && x == y
  {
    LastBreakAt(a, x);
    LastBreakAt(b, y);
    assert a + "\n" + x == a + ("\n" + x) && b + "\n" + y == b + ("\n" + y);
    var s := a + ("\n" + x);
    assert a == s[..|a|] && x == s[|a| + 1..];
    assert b == s[..|b|] && y == s[|b| + 1..];
  }

  lemma {:induction false} DigitsHaveNoBreak(v: string, parts: seq<string>)
    requires parts == Split(v, '.') && forall i :: 0 <= i < |parts| ==> AllDigits(parts[i])
    ensures '\n' !in v
  {
    if v != "" {
      var rest := Split(v[1..], '.');
      if v[0] == '.' {
        assert parts[1..] == rest;
      } else {
        assert parts[0][0] == v[0] && parts[0][1..] == rest[0] && parts[1..] == rest[1..];
        assert forall i :: 0 <= i < |rest| ==> rest[i] == if i == 0 then parts[0][1..] else parts[i];
      }
      DigitsHaveNoBreak(v[1..], rest);
    }
  }

  lemma FieldsHaveNoBreak(m: Manifest)
    requires Validate(m) == Fine
    ensures '\n' !in m.version && '\n' !in m.fileName && '\n' !in m.sha256 && Lower(m.sha256) == m.sha256
    ensures '\n' !in FormatInt(m.size) && '\n' !in FormatBool(m.mandatory)
  {
    DigitsHaveNoBreak(m.version, Split(m.version, '.'));
  }

  lemma {:induction false} JoinLast(xs: seq<string>, sep: string)
    requires |xs| >= 2
    ensures Join(xs, sep) == Join(xs[..|xs| - 1], sep) + (sep + xs[|xs| - 1])
  {
    JoinMore(xs[..|xs| - 1], xs[|xs| - 1], sep);
    assert xs[..|xs| - 1] + [xs[|xs| - 1]] == xs;
  }

  lemma {:induction false} DropLastField(xs: seq<string>, ys: seq<string>, sep: string)
    requires sep == "\n" && |xs| == |ys| && |xs| >= 2 && Join(xs, sep) == Join(ys, sep)
    requires '\n' !in xs[|xs| - 1] && '\n' !in ys[|ys| - 1]
    ensures xs[|xs| - 1] == ys[|ys| - 1] && Join(xs[..|xs| - 1], sep) == Join(ys[..|ys| - 1], sep)
  {
    JoinLast(xs, sep);
    JoinLast(ys, sep);
    LastLine(Join(xs[..|xs| - 1], sep), xs[|xs| - 1], Join(ys[..|ys| - 1], sep), ys[|ys| - 1]);
  }

  lemma TakeAndDrop<T>(xs: seq<T>, front: seq<T>, k: nat)
    requires k < |xs| && front == xs[..|xs| - 1]
    ensures front[..k] == xs[..k] && xs[k..] == front[k..] + [xs[|xs| - 1]]
  {
  }

  /** Joined fields agree one by one from the end, as long as they have no line breaks. */
  lemma {:induction false} FieldsAgree(xs: seq<string>, ys: seq<string>, sep: string, k: nat)
    requires sep == "\n" && |xs| == |ys| && 1 <= k <= |xs| && Join(xs, sep) == Join(ys, sep)
    requires forall i :: k <= i < |xs| ==> '\n' !in xs[i] && '\n' !in ys[i]
    ensures xs[k..] == ys[k..] && Join(xs[..k], sep) == Join(ys[..k], sep)
    decreases |xs|
  {
    if k == |xs| {
      assert xs[..k] == xs && ys[..k] == ys;
    } else {
      DropLastField(xs, ys, sep);
      var a, b := xs[..|xs| - 1], ys[..|ys| - 1];
      FieldsAgree(a, b, sep, k);
      TakeAndDrop(xs, a, k);
      TakeAndDrop(ys, b, k);
    }
  }

  lemma {:induction false} NumbersAgree(m: nat, n: nat)
    requires Itoa(m) == Itoa(n)
    ensures m == n
  {
    AtoiItoa(m);
    AtoiItoa(n);
  }

  lemma BreaksOnlyInPlatform(m: Manifest, i: nat)
    requires Validate(m) == Fine && 2 <= i < 7
    ensures '\n' !in Fields(m)[i]
  {
    FieldsHaveNoBreak(m);
  }

  lemma {:induction false} PlatformsAgree(tag: string, p: string, q: string, sep: string)
    requires Join([tag, p], sep) == Join([tag, q], sep)
    ensures p == q
  {
    assert [tag, p][1..] == [p] && [tag, q][1..] == [q];
    assert tag + sep + p == tag + sep + q;
    assert p == (tag + sep + p)[|tag + sep|..];
    assert q == (tag + sep + q)[|tag + sep|..];
  }

  lemma FieldsOfPayload(m: Manifest, n: Manifest)
    requires Validate(m) == Fine && Validate(n) == Fine && SigningPayload(m) == SigningPayload(n)
    ensures Fields(m)[2..] == Fields(n)[2..] && m.platform == n.platform
  {
    var xs, ys := Fields(m), Fields(n);
    forall i | 2 <= i < |xs| ensures '\n' !in xs[i] && '\n' !in ys[i] {
      BreaksOnlyInPlatform(m, i);
      BreaksOnlyInPlatform(n, i);
    }
    FieldsAgree(xs, ys, "\n", 2);
    assert xs[..2] == [TAG, m.platform] && ys[..2] == [TAG, n.platform];
    PlatformsAgree(TAG, m.platform, n.platform, "\n");
  }

  /**
   * Valid manifests with the same signed bytes are the same in every signed field, although a platform may hold line
   * breaks.
   */
  lemma PayloadIsInjective(m: Manifest, n: Manifest)
    requires Validate(m) == Fine && Validate(n) == Fine && SigningPayload(m) == SigningPayload(n)
    ensures m == n
  {
    FieldsOfPayload(m, n);
    var xs, ys := Fields(m), Fields(n);
    assert forall i :: 2 <= i < 7 ==> xs[i] == xs[2..][i - 2] && ys[i] == ys[2..][i - 2];
    FieldsHaveNoBreak(m);
    FieldsHaveNoBreak(n);
    assert xs[2] == ys[2] && xs[3] == ys[3] && xs[4] == ys[4] && xs[5] == ys[5] && xs[6] == ys[6];
    NumbersAgree(m.size, n.size);
  }

  /** Without the checks, a line break can move from one field to the next. */
  lemma UncheckedPayloadsCollide(a: string, b: string, c: string, m: Manifest, n: Manifest)
    requires m.platform == a + "\n" + b && m.version == c && n.platform == a && n.version == b + "\n" + c
    requires n == m.(platform := n.platform, version := n.version)
    ensures SigningPayload(m) == SigningPayload(n) && m != n
  {
    var rest := Fields(m)[3..];
    assert Fields(n)[3..] == rest;
    ThreeFields("\n", TAG, m.platform, m.version, rest, Fields(m));
    ThreeFields("\n", TAG, n.platform, n.version, rest, Fields(n));
    assert a + "\n" + b + "\n" + c == a + "\n" + (b + "\n" + c);
    assert |m.platform| > |n.platform|;
  }

  lemma {:induction false} JoinFirst(x: string, rest: seq<string>, sep: string, all: seq<string>)
    requires all == [x] + rest && rest != []
    ensures Join(all, sep) == x + sep + Join(rest, sep)
  {
    assert all[1..] == rest;
  }

  lemma ConsThree<T>(a: T, b: T, c: T, rest: seq<T>)
    ensures [a, b, c] + rest == [a] + ([b] + ([c] + rest))
  {
  }

  lemma {:induction false} ThreeFields(sep: string, tag: string, p: string, v: string, rest: seq<string>,
      fields: seq<string>)
    requires fields == [tag, p, v] + rest && rest != []
    ensures Join(fields, sep) == tag + sep + (p + sep + v) + sep + Join(rest, sep)
  {
    ConsThree(tag, p, v, rest);
    JoinFirst(v, rest, sep, [v] + rest);
    JoinFirst(p, [v] + rest, sep, [p] + ([v] + rest));
    JoinFirst(tag, [p] + ([v] + rest), sep, fields);
    Regroup(tag, p, v, sep, Join(rest, sep));
  }

  lemma Regroup(tag: string, p: string, v: string, sep: string, j: string)
    ensures tag + sep + (p + sep + (v + sep + j)) == tag + sep + (p + sep + v) + sep + j
  {
  }
}
