/** Port lists of resources (server/internal/ports/ports.go). */
module Ports {
  import opened Options
  import opened Text

  const MAX_PORT := 65535

  /** The ports one entry of a list means. */
  datatype PortRange = PortRange(lo: nat, hi: nat) {
    predicate Valid() {
      1 <= lo <= hi <= MAX_PORT
    }

    predicate Has(port: nat) {
      lo <= port <= hi
    }
  }

  /** strings.ReplaceAll(s, " ", "") */
  function Squash(s: string): (r: string)
    ensures ' ' !in r
    ensures forall c :: c in s && c != ' ' ==> c in r
    ensures s != "" && s[0] != ' ' ==> r != "" && r[0] == s[0]
    ensures s != "" && s[|s| - 1] != ' ' ==> r != "" && r[|r| - 1] == s[|s| - 1]
    ensures ' ' !in s ==> r == s
  {
    if s == "" then "" else if s[0] == ' ' then Squash(s[1..]) else [s[0]] + Squash(s[1..])
  }

  predicate MeansAll(lower: string) {
    lower == "" || lower == "all" || lower == "all ports"
  }

  /** The label stripping loop, entered with a trimmed text. */
  function NormalizeTrimmed(s: string): string
    requires Trimmed(s)
    decreases |s|
  {
    var lower := Lower(s);
    if MeansAll(lower) then ""
    else if StartsWith(lower, "ports:") then NormalizeTrimmed(Trim(s[6..]))
    else if StartsWith(lower, "port:") then NormalizeTrimmed(Trim(s[5..]))
    else Squash(s)
  }

  /** "" means every port. */
  function Normalize(raw: string): string {
    NormalizeTrimmed(Trim(raw))
  }

  function ParsePort(raw: string): (r: Option<nat>)
    ensures r.Some? ==> 1 <= r.value <= MAX_PORT
  {
    var port :- Atoi(Trim(raw));
    if 1 <= port <= MAX_PORT then Some(port) else None
  }

  function Separator(s: string): char {
    if ':' in s then ':' else '-'
  }

  /** A trimmed, nonempty list entry. */
  function ParseSpec(s: string): (r: Option<PortRange>)
    ensures r.Some? ==> r.value.Valid()
  {
    if '-' in s || ':' in s then
      var pieces := Split(s, Separator(s));
      if |pieces| != 2 then None
      else
        var lo :- ParsePort(pieces[0]);
        var hi :- ParsePort(pieces[1]);
        if lo > hi then None else Some(PortRange(lo, hi))
    else
      var port :- ParsePort(s);
      Some(PortRange(port, port))
  }

  predicate AllValid(specs: seq<PortRange>) {
    forall i :: 0 <= i < |specs| ==> specs[i].Valid()
  }

  function Prepend(specs: seq<PortRange>, r: Option<seq<PortRange>>): (out: Option<seq<PortRange>>)
    ensures AllValid(specs) && (r.Some? ==> AllValid(r.value)) && out.Some? ==> AllValid(out.value)
  {
    match r
    case None => None
    case Some(rest) => Some(specs + rest)
  }

  /** Empty entries are skipped; one bad entry rejects the list. */
  function ParseParts(parts: seq<string>): (r: Option<seq<PortRange>>)
    ensures r.Some? ==> AllValid(r.value)
  {
    if parts == [] then Some([])
    else if Trim(parts[0]) == "" then ParseParts(parts[1..])
    else
      var first :- ParseSpec(Trim(parts[0]));
      Prepend([first], ParseParts(parts[1..]))
  }

  function ParseNormal(n: string): (r: Option<seq<PortRange>>)
    ensures r.Some? ==> n != "" && r.value != [] && AllValid(r.value)
  {
    if n == "" then None
    else
      var specs :- ParseParts(Split(n, ','));
      if specs == [] then None else Some(specs)
  }

  function ParseSpecs(raw: string): (r: Option<seq<PortRange>>)
    ensures r.Some? ==> r.value != [] && AllValid(r.value)
  {
    ParseNormal(Normalize(raw))
  }

  predicate ValidNormal(n: string) {
    n == "" || ParseNormal(n).Some?
  }

  /** ports.Validate */
  predicate Valid(raw: string) {
    ValidNormal(Normalize(raw))
  }

  /**
   * What the admin interface stores for a normalized text, unless it refuses it. It validates that text, not the one
   * written.
   */
  function StoreNormal(n: string): Option<Option<string>> {
    if n == "" then Some(None)
    else if Valid(n) then Some(Some(n))
    else None
  }

  /** normalizeResourcePorts */
  function Store(raw: Option<string>): Option<Option<string>> {
    if raw.None? then Some(None) else StoreNormal(Normalize(raw.value))
  }

  // ---- The loops ----------------------------------------------------------

  method NormalizeLoop(raw: string) returns (r: string)
    ensures r == Normalize(raw)
  {
    var s := Trim(raw);
    while true
      invariant Trimmed(s) && NormalizeTrimmed(s) == Normalize(raw)
      decreases |s|
    {
      TrimTrimmed(s);
      var lower := Lower(Trim(s));
      if MeansAll(lower) {
        return "";
      } else if StartsWith(lower, "ports:") {
        s := Trim(s[6..]);
      } else if StartsWith(lower, "port:") {
        s := Trim(s[5..]);
      } else {
        return Squash(s);
      }
    }
  }

  lemma PrependNothing(r: Option<seq<PortRange>>)
    ensures Prepend([], r) == r
  {
    if r.Some? {
      assert [] + r.value == r.value;
    }
  }

  lemma PrependMore(specs: seq<PortRange>, spec: PortRange, r: Option<seq<PortRange>>)
    ensures Prepend(specs, Prepend([spec], r)) == Prepend(specs + [spec], r)
  {
    if r.Some? {
      assert specs + ([spec] + r.value) == specs + [spec] + r.value;
    }
  }

  lemma PrependStep(specs: seq<PortRange>, parts: seq<string>, i: nat, part: string)
    requires i < |parts| && part == Trim(parts[i])
    ensures part == "" ==> ParseParts(parts[i..]) == ParseParts(parts[i + 1..])
    ensures part != "" && ParseSpec(part).None? ==> ParseParts(parts[i..]) == None
    ensures part != "" && ParseSpec(part).Some? ==>
              Prepend(specs, ParseParts(parts[i..]))
                == Prepend(specs + [ParseSpec(part).value], ParseParts(parts[i + 1..]))
  {
    if part != "" && ParseSpec(part).Some? {
      PrependMore(specs, ParseSpec(part).value, ParseParts(parts[i + 1..]));
    }
  }

  method ParsePartsLoop(parts: seq<string>) returns (r: Option<seq<PortRange>>)
    ensures r == ParseParts(parts)
  {
    var specs: seq<PortRange> := [];
    assert parts[0..] == parts;
    PrependNothing(ParseParts(parts));
    var i := 0;
    while i < |parts|
      invariant 0 <= i <= |parts|
      invariant ParseParts(parts) == Prepend(specs, ParseParts(parts[i..]))
    {
      var part := Trim(parts[i]);
      PrependStep(specs, parts, i, part);
      if part != "" {
        var spec := ParseSpec(part);
        if spec.None? {
          return None;
        }
        specs := specs + [spec.value];
      }
      i := i + 1;
    }
    assert parts[i..] == [] && specs + [] == specs;
    r := Some(specs);
  }

  method ParseSpecsLoop(raw: string) returns (r: Option<seq<PortRange>>)
    ensures r == ParseSpecs(raw)
  {
    var normalized := NormalizeLoop(raw);
    if normalized == "" {
      return None;
    }
    var specs := ParsePartsLoop(Split(normalized, ','));
    r := if specs == Some([]) then None else specs;
  }

  // ---- What a list means --------------------------------------------------

  /** The text handed to iptables as --dport: one number for a port, two for a range, also of one port. */
  function SpecText(s: string): Option<string> {
    if ParseSpec(s).None? then None
    else
      var r := ParseSpec(s).value;
      Some(if '-' in s || ':' in s then Itoa(r.lo) + [':'] + Itoa(r.hi) else Itoa(r.lo))
  }

  lemma {:induction false} ParsePortItoa(n: nat)
    requires 1 <= n <= MAX_PORT
    ensures ParsePort(Itoa(n)) == Some(n)
  {
    var s := Itoa(n);
    assert Trimmed(s);
    TrimTrimmed(s);
    AtoiItoa(n);
  }

  lemma {:induction false} SplitPair(a: string, sep: char, b: string)
    requires sep !in a && sep !in b
    ensures Split(a + [sep] + b, sep) == [a, b]
  {
    SplitCons(a, sep, b);
    SplitNone(b, sep);
  }

  lemma DigitsHoldNone(s: string)
    requires AllDigits(s)
    ensures '-' !in s && ':' !in s
  {
  }

  lemma {:induction false} PortReads(n: nat, s: string)
    requires 1 <= n <= MAX_PORT && s == Itoa(n)
    ensures ParseSpec(s) == Some(PortRange(n, n))
  {
    ParsePortItoa(n);
    DigitsHoldNone(s);
  }

  lemma {:induction false} ColonOnly(lo: string, hi: string, d: string)
    requires AllDigits(lo) && AllDigits(hi) && d == lo + [':'] + hi
    ensures ':' in d && Separator(d) == ':' && Split(d, ':') == [lo, hi]
  {
    assert d[|lo|] == ':';
    DigitsHoldNone(lo);
    DigitsHoldNone(hi);
    SplitPair(lo, ':', hi);
  }

  lemma PairReads(r: PortRange, lo: string, hi: string, d: string)
    requires r.Valid() && lo == Itoa(r.lo) && hi == Itoa(r.hi) && d == lo + [':'] + hi
    ensures ParseSpec(d) == Some(r)
  {
    ParsePortItoa(r.lo);
    ParsePortItoa(r.hi);
    ColonOnly(lo, hi, d);
  }

  /** Every text handed to iptables reads back as the entry it was made from. */
  lemma DportReadsBack(s: string)
    requires ParseSpec(s).Some?
    ensures ParseSpec(SpecText(s).value) == ParseSpec(s)
  {
    var r := ParseSpec(s).value;
    if '-' in s || ':' in s {
      PairReads(r, Itoa(r.lo), Itoa(r.hi), SpecText(s).value);
    } else {
      PortReads(r.lo, SpecText(s).value);
    }
  }

  predicate IsLetter(c: char) {
    'a' <= c <= 'z' || 'A' <= c <= 'Z'
  }

  lemma LetterIsNoPort(s: string)
    requires s != "" && IsLetter(s[0])
    ensures ParsePort(s).None?
  {
    TrimKeepsFirst(s);
    assert !IsDigit(Trim(s)[0]);
  }

  lemma LetterIsNoSpec(s: string)
    requires s != "" && IsLetter(s[0])
    ensures ParseSpec(s).None?
  {
    if '-' in s || ':' in s {
      var pieces := Split(s, Separator(s));
      LetterIsNoPort(pieces[0]);
    } else {
      LetterIsNoPort(s);
    }
  }

  lemma {:induction false} LetterIsNoList(n: string)
    requires n != "" && IsLetter(n[0])
    ensures ParseParts(Split(n, ',')).None?
  {
    var part := Split(n, ',')[0];
    TrimKeepsFirst(part);
    LetterIsNoSpec(Trim(part));
  }

  lemma {:induction false} NormalizeShape(s: string)
    requires Trimmed(s)
    ensures var n := NormalizeTrimmed(s); Trimmed(n) && ' ' !in n
    decreases |s|
  {
    var lower := Lower(s);
    if MeansAll(lower) {
    } else if StartsWith(lower, "ports:") {
      NormalizeShape(Trim(s[6..]));
    } else if StartsWith(lower, "port:") {
      NormalizeShape(Trim(s[5..]));
    }
  }

  // ---- Normalizing twice -----------------------------------------------------

  /** The loop would strip more. */
  predicate Labelled(lower: string) {
    MeansAll(lower) || StartsWith(lower, "ports:") || StartsWith(lower, "port:")
  }

  lemma {:induction false} SquashShorter(s: string)
    ensures |Squash(s)| <= |s|
  {
    if s != "" {
      SquashShorter(s[1..]);
    }
  }

  lemma TrimShorter(s: string)
    ensures |Trim(s)| <= |s|
  {
  }

  lemma {:induction false} NormalizeShorter(s: string)
    requires Trimmed(s)
    ensures |NormalizeTrimmed(s)| <= |s|
    decreases |s|
  {
    var lower := Lower(s);
    if MeansAll(lower) {
    } else if StartsWith(lower, "ports:") {
      TrimShorter(s[6..]);
      NormalizeShorter(Trim(s[6..]));
    } else if StartsWith(lower, "port:") {
      TrimShorter(s[5..]);
      NormalizeShorter(Trim(s[5..]));
    } else {
      SquashShorter(s);
    }
  }

  /** Normalizing a trimmed text without spaces changes it exactly when it is labelled. */
  lemma {:induction false} CompactStableIff(n: string)
    requires Trimmed(n) && ' ' !in n
    ensures NormalizeTrimmed(n) == n <==> n == "" || !Labelled(Lower(n))
  {
    var lower := Lower(n);
    if StartsWith(lower, "ports:") && !MeansAll(lower) {
      TrimShorter(n[6..]);
      NormalizeShorter(Trim(n[6..]));
    } else if StartsWith(lower, "port:") && !MeansAll(lower) {
      TrimShorter(n[5..]);
      NormalizeShorter(Trim(n[5..]));
    }
  }

  lemma NormalShape(raw: string)
    ensures var n := Normalize(raw); Trimmed(n) && ' ' !in n && Trim(n) == n
  {
    NormalizeShape(Trim(raw));
    TrimTrimmed(Normalize(raw));
  }

  lemma {:induction false} LabelledStartsWithLetter(n: string, lower: string)
    requires n != "" && lower == Lower(n) && (lower[0] == 'a' || lower[0] == 'p')
    ensures IsLetter(n[0])
  {
  }

  lemma {:induction false} LabelledNormalIsInvalid(n: string)
    requires n != "" && Labelled(Lower(n))
    ensures !ValidNormal(n)
  {
    LabelledStartsWithLetter(n, Lower(n));
    LetterIsNoList(n);
  }

  /** What is left of a compact labelled text when its label is dropped means all, or is valid as a list. */
  predicate HidesList(n: string) {
    var lower := Lower(n);
    || MeansAll(lower)
    || (StartsWith(lower, "ports:") && Valid(n[6..]))
    || (StartsWith(lower, "port:") && Valid(n[5..]))
  }

  lemma LabelsDiffer(lower: string)
    requires StartsWith(lower, "ports:")
    ensures !StartsWith(lower, "port:") && !MeansAll(lower)
  {
    assert lower[..6][4] == 's';
  }

  lemma PortLabelMeansNotAll(lower: string)
    requires StartsWith(lower, "port:")
    ensures !MeansAll(lower)
  {
    assert lower[..5][0] == 'p';
  }

  lemma {:induction false} LabelledValidIff(n: string)
    requires n != "" && Trimmed(n) && Labelled(Lower(n))
    ensures ValidNormal(Normalize(n)) <==> HidesList(n)
  {
    TrimTrimmed(n);
    var lower := Lower(n);
    if StartsWith(lower, "ports:") {
      LabelsDiffer(lower);
    } else if StartsWith(lower, "port:") {
      PortLabelMeansNotAll(lower);
    }
  }

  lemma {:induction false} HidesListIsLabelled(n: string)
    requires HidesList(n)
    ensures Labelled(Lower(n))
  {
  }

  /** Of a normal form: valid once more, though not valid as it stands, exactly when it hides a list. */
  lemma AgainValidIff(n: string)
    requires Trimmed(n) && ' ' !in n && n != ""
    ensures ValidNormal(n) ==> ValidNormal(Normalize(n))
    ensures ValidNormal(Normalize(n)) && !ValidNormal(n) <==> HidesList(n)
  {
    TrimTrimmed(n);
    CompactStableIff(n);
    if Labelled(Lower(n)) {
      LabelledNormalIsInvalid(n);
      LabelledValidIff(n);
    } else if HidesList(n) {
      HidesListIsLabelled(n);
    }
  }

  lemma AcceptedNormalIff(n: string)
    requires Trimmed(n) && ' ' !in n
    ensures ValidNormal(n) ==> StoreNormal(n).Some?
    ensures StoreNormal(n).Some? && !ValidNormal(n) <==> n != "" && HidesList(n)
  {
    if n != "" {
      AgainValidIff(n);
    }
  }

  /**
   * The admin interface accepts a text validation rejects exactly when its normal form hides a list behind another
   * label; never the other way.
   */
  lemma AcceptedUnlikeValidIff(raw: string, n: string)
    requires n == Normalize(raw)
    ensures Valid(raw) ==> Store(Some(raw)).Some?
    ensures Store(Some(raw)).Some? && !Valid(raw) <==> n != "" && HidesList(n)
  {
    NormalShape(raw);
    AcceptedNormalIff(n);
  }

  /** What normalizing once more does to a normal form. */
  lemma {:induction false} AgainStableIff(n: string)
    requires Trimmed(n) && ' ' !in n
    ensures Normalize(n) == n <==> n == "" || !Labelled(Lower(n))
    ensures ValidNormal(n) ==> Normalize(n) == n
  {
    TrimTrimmed(n);
    CompactStableIff(n);
    if n != "" && Labelled(Lower(n)) {
      LabelledNormalIsInvalid(n);
    }
  }

  /** Normalizing a second time changes nothing exactly when what the first time left is empty or not labelled. */
  lemma {:induction false} NormalizeStableIff(raw: string, n: string)
    requires n == Normalize(raw)
    ensures Normalize(n) == n <==> n == "" || !Labelled(Lower(n))
  {
    NormalShape(raw);
    AgainStableIff(n);
  }

  /** A stored list means what was written exactly when its text is not labelled; whatever is stored is valid. */
  lemma {:induction false} StoredMeansWrittenIff(raw: string, n: string)
    requires Store(Some(raw)) == Some(Some(n))
    ensures n == Normalize(raw) && Valid(n)
    ensures Normalize(n) == Normalize(raw) <==> !Labelled(Lower(n))
  {
    NormalShape(raw);
    AgainStableIff(n);
  }

  /** A list that parses is not read differently by being normalized once more. */
  lemma NormalizeKeepsValid(raw: string, n: string)
    requires n == Normalize(raw) && ParseSpecs(raw).Some?
    ensures n != "" && Normalize(n) == n && ParseSpecs(n) == ParseSpecs(raw)
  {
    NormalShape(raw);
    AgainStableIff(n);
  }

  /**
   * A normal form that means all: the text is rejected by validation, accepted by the admin interface, and read as
   * every port.
   */
  lemma {:induction false} HiddenAllIsStored(raw: string, n: string)
    requires Normalize(raw) == n && n != "" && MeansAll(Lower(n))
    ensures !Valid(raw) && Store(Some(raw)) == Some(Some(n)) && Normalize(n) == ""
  {
    NormalShape(raw);
    LabelledNormalIsInvalid(n);
  }

  lemma {:induction false} PlainNormalizes(raw: string)
    requires Trimmed(raw) && Lower(raw) == raw && !MeansAll(raw) && !StartsWith(raw, "ports:")
             && !StartsWith(raw, "port:")
    ensures Normalize(raw) == Squash(raw)
  {
    TrimTrimmed(raw);
  }

  /** For one: "a ll" is rejected by validation, but stored as "all" and read as every port. */
  lemma NormalizeIsNotIdempotent(raw: string)
    requires raw == "a ll"
    ensures !Valid(raw) && Store(Some(raw)).Some? && Normalize(Normalize(raw)) == ""
  {
    var n := Squash(raw);
    PlainNormalizes(raw);
    HiddenAllIsStored(raw, n);
  }
}
