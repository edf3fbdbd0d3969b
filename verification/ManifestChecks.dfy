/** Which manifests pass the field checks, told from their texts (client/internal/update/manifest.go). */
module ManifestChecks {
  import opened Text
  import opened Manifest

  // ---- First and last parts -------------------------------------------------------------

  /** The text before the first separator is w. */
  lemma {:induction false} FirstPartIff(s: string, sep: char, w: string)
    requires sep !in w
    ensures Split(s, sep)[0] == w <==> s == w || StartsWith(s, w + [sep])
  {
    var k := Find(s, sep);
    PrefixAt(s, w + [sep], |w|);
    if k == |s| {
      SplitNone(s, sep);
    } else {
      assert s == s[..k] + [sep] + s[k + 1..];
      SplitCons(s[..k], sep, s[k + 1..]);
      if StartsWith(s, w + [sep]) {
        assert s == w + [sep] + s[|w| + 1..];
        FindAt(w, sep, s[|w| + 1..]);
      }
    }
  }

  function LastOf(parts: seq<string>): string
    requires parts != []
  {
    parts[|parts| - 1]
  }

  lemma {:induction false} LastPart(a: string, sep: char, b: string)
    requires sep !in b
    ensures LastOf(Split(a + [sep] + b, sep)) == b
  {
    var s := a + [sep] + b;
    if a == "" {
      assert s[1..] == b;
      SplitNone(b, sep);
    } else {
      assert s[1..] == a[1..] + [sep] + b;
      LastPart(a[1..], sep, b);
      assert sep in s[1..];
      SplitsInTwo(s[1..], sep);
    }
  }

  lemma {:induction false} SplitsInTwo(s: string, sep: char)
    requires sep in s
    ensures |Split(s, sep)| >= 2
  {
    if s[0] != sep {
      SplitsInTwo(s[1..], sep);
    }
  }

  /** What stands before the last part. */
  lemma BeforeLast(s: string, sep: char) returns (a: string)
    requires sep in s
    ensures s == a + [sep] + LastOf(Split(s, sep))
  {
    var k := |s| - 1;
    while s[k] != sep
      invariant 0 <= k < |s| && sep !in s[k + 1..] && sep in s[..k + 1]
      decreases k
    {
      assert s[k..] == [s[k]] + s[k + 1..];
      assert s[..k + 1] == s[..k] + [s[k]];
      k := k - 1;
    }
    a := s[..k];
    LastPart(a, sep, s[k + 1..]);
    assert s == a + [sep] + s[k + 1..];
  }

  // ---- Version ---------------------------------------------------------------------------

  predicate Number(s: string) {
    s != "" && AllDigits(s)
  }

  ghost predicate ThreeNumbers(v: string) {
    exists a, b, c :: Number(a) && Number(b) && Number(c) && v == a + "." + b + "." + c
  }

  lemma {:induction false} JoinSplit(s: string, sep: char)
    ensures Join(Split(s, sep), [sep]) == s
  {
    if s != "" {
      JoinSplit(s[1..], sep);
      var rest := Split(s[1..], sep);
      if s[0] == sep {
        assert ([""] + rest)[1..] == rest;
        assert s == "" + [sep] + s[1..];
      } else {
        assert ([[s[0]] + rest[0]] + rest[1..])[1..] == rest[1..];
        assert s == [s[0]] + s[1..];
        if |rest| > 1 {
          assert [s[0]] + (rest[0] + [sep] + Join(rest[1..], [sep]))
            == [s[0]] + rest[0] + [sep] + Join(rest[1..], [sep]);
        }
      }
    }
  }

  lemma {:induction false} JoinThree(parts: seq<string>, a: string, b: string, c: string, sep: string)
    requires parts == [a, b, c]
    ensures Join(parts, sep) == a + sep + b + sep + c
  {
    assert parts[1..] == [b, c] && [b, c][1..] == [c];
    assert Join([b, c], sep) == b + sep + c;
    assert a + sep + (b + sep + c) == a + sep + b + sep + c;
  }

  lemma {:induction false} NumberHasNoDot(s: string)
    requires AllDigits(s)
    ensures '.' !in s
  {
  }

  lemma {:induction false} VersionIff(v: string)
    ensures VersionShape(v) <==> ThreeNumbers(v)
  {
    if VersionShape(v) {
      var parts := Split(v, '.');
      JoinSplit(v, '.');
      JoinThree(parts, parts[0], parts[1], parts[2], ".");
      assert ['.'] == ".";
      assert Number(parts[0]) && Number(parts[1]) && Number(parts[2]);
    }
    if ThreeNumbers(v) {
      var a, b, c :| Number(a) && Number(b) && Number(c) && v == a + "." + b + "." + c;
      ThreeAreAVersion(a, b, c, v);
    }
  }

  lemma {:induction false} ThreeAreAVersion(a: string, b: string, c: string, v: string)
    requires Number(a) && Number(b) && Number(c) && v == a + "." + b + "." + c
    ensures VersionShape(v)
  {
    NumberHasNoDot(a);
    NumberHasNoDot(b);
    NumberHasNoDot(c);
    JoinThree([a, b, c], a, b, c, ".");
    assert ['.'] == ".";
    SplitJoin([a, b, c], '.');
  }

  // ---- Package -----------------------------------------------------------------------------

  /** The platform is that system's, of any architecture. */
  predicate RunsOn(platform: string, system: string) {
    platform == system || StartsWith(platform, system + "-")
  }

  predicate EndsWith(s: string, end: string) {
    |end| <= |s| && s[|s| - |end|..] == end
  }

  /** The extension in any case; a name without a dot is all extension. */
  predicate IsPackage(f: string, ext: string) {
    Lower(f) == ext || EndsWith(Lower(f), "." + ext)
  }

  lemma {:induction false} SystemIff(platform: string)
    ensures WantedExtension(platform) == "msi" <==> RunsOn(platform, "windows")
    ensures WantedExtension(platform) == "pkg" <==> RunsOn(platform, "darwin")
    ensures WantedExtension(platform) in {"msi", "pkg", ""}
  {
    FirstPartIff(platform, '-', "windows");
    FirstPartIff(platform, '-', "darwin");
  }

  lemma {:induction false} DotsStay(s: string)
    ensures '.' in s <==> '.' in Lower(s)
  {
    assert forall i :: 0 <= i < |s| ==> (s[i] == '.' <==> Lower(s)[i] == '.');
  }

  lemma {:induction false} LowerTail(a: string, b: string, s: string)
    requires s == a + b
    ensures Lower(s) == Lower(a) + Lower(b)
  {
  }

  lemma {:induction false} ExtensionIff(f: string, ext: string)
    requires '.' !in ext
    ensures Lower(Extension(f)) == ext <==> IsPackage(f, ext)
  {
    DotsStay(f);
    if '.' in f {
      var a := BeforeLast(f, '.');
      ExtensionEnds(a, Extension(f), f, ext);
    } else {
      SplitNone(f, '.');
      DotInEnd(Lower(f), ext);
    }
  }

  lemma DotInEnd(f: string, ext: string)
    ensures EndsWith(f, "." + ext) ==> '.' in f
  {
    if EndsWith(f, "." + ext) {
      assert f[|f| - |ext| - 1..][0] == '.';
    }
  }

  lemma {:induction false} ExtensionEnds(a: string, e: string, f: string, ext: string)
    requires f == a + "." + e && '.' !in e && '.' !in ext && '.' in Lower(f)
    ensures Lower(e) == ext <==> IsPackage(f, ext)
  {
    LowerTail(a + ".", e, f);
    LowerTail(a, ".", a + ".");
    assert Lower(".") == "." && Lower(f) == Lower(a) + "." + Lower(e);
    DotsStay(e);
    SameEnd(Lower(a), Lower(e), Lower(f), ext);
  }

  lemma NoDotAfter(f: string, k: nat, e: string)
    requires k < |f| && f[k..] == "." + e && '.' !in e
    ensures f[k] == '.' && forall p :: k < p < |f| ==> f[p] != '.'
  {
    assert f[k] == f[k..][0];
    forall p | k < p < |f| ensures f[p] != '.' {
      assert f[p] == f[k..][p - k] == e[p - k - 1];
    }
  }

  lemma SameEnd(a: string, e: string, f: string, ext: string)
    requires f == a + "." + e && '.' !in e && '.' !in ext
    ensures e == ext <==> EndsWith(f, "." + ext)
  {
    if EndsWith(f, "." + ext) {
      var k := |f| - |ext| - 1;
      assert f[k..] == "." + ext;
      NoDotAfter(f, |a|, e);
      NoDotAfter(f, k, ext);
      assert k == |a| && f[k + 1..] == ext;
    }
    if e == ext {
      assert f[|f| - |ext| - 1..] == "." + ext;
    }
  }

  predicate IsInstaller(platform: string, f: string) {
    (RunsOn(platform, "windows") && IsPackage(f, "msi")) || (RunsOn(platform, "darwin") && IsPackage(f, "pkg"))
  }

  lemma InstallerIff(platform: string, f: string)
    ensures WantedExtension(platform) != "" && Lower(Extension(f)) == WantedExtension(platform)
            <==> IsInstaller(platform, f)
  {
    SystemIff(platform);
    ExtensionIff(f, "msi");
    ExtensionIff(f, "pkg");
  }

  // ---- All fields --------------------------------------------------------------------------

  /** Letters, digits, '.', '_' and '-', by character code, and no two dots together. */
  predicate IsFileName(f: string) {
    && f != "" && |f| < 129 && f[0] != '.' && f[0] != '_' && f[0] != '-'
    && (forall i :: 0 <= i < |f| ==>
          var c := f[i] as int;
          c == 45 || c == 46 || 48 <= c <= 57 || 65 <= c <= 90 || c == 95 || 97 <= c <= 122)
    && forall i :: 0 < i < |f| ==> !(f[i - 1] == f[i] == '.')
  }

  predicate IsHexHash(h: string) {
    |h| == 2 * 32 && forall i :: 0 <= i < |h| ==> 48 <= h[i] as int <= 57 || 97 <= h[i] as int <= 102
  }

  lemma FileNameIff(f: string)
    ensures FileNameShape(f) && !TwoDots(f) <==> IsFileName(f)
  {
    if IsFileName(f) {
      forall i | 0 <= i && i + 1 < |f| ensures !(f[i] == '.' && f[i + 1] == '.') {
        assert !(f[i + 1 - 1] == f[i + 1] == '.');
      }
    }
    if FileNameShape(f) && !TwoDots(f) {
      forall i | 0 < i < |f| ensures !(f[i - 1] == f[i] == '.') {
        var j := i - 1;
        assert !(f[j] == '.' && f[j + 1] == '.');
      }
    }
  }

  lemma HashIff(h: string)
    ensures HashShape(h) <==> IsHexHash(h)
  {
  }

  /**
   * A manifest passes if and only if its version is three numbers, its file a plain name, its hash 64 lower-case
   * hexadecimal digits, its size at most 512 MiB, and the file an installer of the platform's system.
   */
  lemma ValidIff(m: Manifest)
    ensures Validate(m) == Fine <==>
            && ThreeNumbers(m.version) && IsFileName(m.fileName) && IsHexHash(m.sha256)
            && 0 < m.size <= 512 * 1024 * 1024 && IsInstaller(m.platform, m.fileName)
  {
    VersionIff(m.version);
    FileNameIff(m.fileName);
    HashIff(m.sha256);
    InstallerIff(m.platform, m.fileName);
  }

  /** The first check that fails names the error. */
  lemma ErrorsInOrder(m: Manifest)
    ensures Validate(m) == BadVersion <==> !ThreeNumbers(m.version)
    ensures Validate(m) == BadFileName <==> ThreeNumbers(m.version) && !IsFileName(m.fileName)
    ensures Validate(m) == BadHash <==> ThreeNumbers(m.version) && IsFileName(m.fileName) && !IsHexHash(m.sha256)
    ensures Validate(m) == BadSize <==>
            && ThreeNumbers(m.version) && IsFileName(m.fileName) && IsHexHash(m.sha256)
            && (m.size <= 0 || m.size > 512 * 1024 * 1024)
  {
    VersionIff(m.version);
    FileNameIff(m.fileName);
    HashIff(m.sha256);
  }
}
