/** Single lines of WireGuard configuration text (client/internal/config/parser.go, model.go). */
module WgLines {
  import opened Text

  datatype Key = PrivateKey | Address | DNS | MTU | ListenPort
               | PublicKey | PresharedKey | AllowedIPs | Endpoint | PersistentKeepalive | OtherKey

  /** The key a lower-cased name stands for. */
  function KeyOf(name: string): Key {
    if name == "privatekey" then PrivateKey
    else if name == "address" then Address
    else if name == "dns" then DNS
    else if name == "mtu" then MTU
    else if name == "listenport" then ListenPort
    else if name == "publickey" then PublicKey
    else if name == "presharedkey" then PresharedKey
    else if name == "allowedips" then AllowedIPs
    else if name == "endpoint" then Endpoint
    else if name == "persistentkeepalive" then PersistentKeepalive
    else OtherKey
  }

  datatype Section = Top | InInterface | InPeer | Unknown

  datatype Line = Blank | Header(section: Section) | Entry(key: Key, val: string) | Malformed

  function SectionOf(name: string): Section {
    if name == "interface" then InInterface else if name == "peer" then InPeer else Unknown
  }

  predicate IsHeader(t: string) {
    |t| >= 2 && t[0] == '[' && t[|t| - 1] == ']'
  }

  /** Position of the first " #", or the length. */
  function MarkAt(v: string): (i: nat)
    ensures i <= |v|
    ensures i < |v| ==> i + 1 < |v| && v[i] == ' ' && v[i + 1] == '#'
    ensures forall k :: 0 <= k < i && k + 1 < |v| ==> !(v[k] == ' ' && v[k + 1] == '#')
  {
    if |v| < 2 then |v| else if v[0] == ' ' && v[1] == '#' then 0 else 1 + MarkAt(v[1..])
  }

  predicate Unmarked(v: string) {
    forall k :: 0 <= k && k + 1 < |v| ==> !(v[k] == ' ' && v[k + 1] == '#')
  }

  function StripComment(v: string): string {
    if MarkAt(v) < |v| then Trim(v[..MarkAt(v)]) else v
  }

  /** What is kept of the text after the '='. */
  function ReadValue(v: string): string {
    StripComment(Trim(v))
  }

  /** t split at its first '='. */
  function EntryAt(t: string, i: nat): Line
    requires i <= |t|
  {
    if i == |t| then Malformed else Entry(KeyOf(Lower(Trim(t[..i]))), ReadValue(t[i + 1..]))
  }

  function HeaderOf(t: string): Line
    requires IsHeader(t)
  {
    Header(SectionOf(Lower(t[1..|t| - 1])))
  }

  function ClassifyText(t: string): Line {
    if t == "" || t[0] == '#' || t[0] == ';' then Blank
    else if IsHeader(t) then HeaderOf(t)
    else EntryAt(t, Find(t, '='))
  }

  function Classify(raw: string): Line {
    ClassifyText(Trim(raw))
  }

  /** What the parser makes of each line. */
  function Parsed(lines: seq<string>): (r: seq<Line>)
    ensures |r| == |lines|
  {
    if lines == [] then [] else [Classify(lines[0])] + Parsed(lines[1..])
  }

  lemma ParsedOne(line: string)
    ensures Parsed([line]) == [Classify(line)]
  {
    assert [line][1..] == [];
  }

  lemma {:induction false} ParsedConcat(a: seq<string>, b: seq<string>)
    ensures Parsed(a + b) == Parsed(a) + Parsed(b)
  {
    if a == [] {
      assert a + b == b;
    } else {
      assert (a + b)[1..] == a[1..] + b;
      ParsedConcat(a[1..], b);
      assert [Classify(a[0])] + (Parsed(a[1..]) + Parsed(b)) == [Classify(a[0])] + Parsed(a[1..]) + Parsed(b);
    }
  }

  // ---- Writing lines -----------------------------------------------------------

  /** The spelling used for writing. */
  function NameOf(key: Key): string {
    match key
    case PrivateKey => "PrivateKey"
    case Address => "Address"
    case DNS => "DNS"
    case MTU => "MTU"
    case ListenPort => "ListenPort"
    case PublicKey => "PublicKey"
    case PresharedKey => "PresharedKey"
    case AllowedIPs => "AllowedIPs"
    case Endpoint => "Endpoint"
    case PersistentKeepalive => "PersistentKeepalive"
    case OtherKey => ""
  }

  function EntryLine(key: Key, val: string): string {
    NameOf(key) + " = " + val
  }

  function TextOf(lines: seq<string>): string {
    if lines == [] then "" else lines[0] + "\n" + TextOf(lines[1..])
  }

  lemma {:induction false} TextOfConcat(a: seq<string>, b: seq<string>)
    ensures TextOf(a + b) == TextOf(a) + TextOf(b)
  {
    if a == [] {
      assert a + b == b;
    } else {
      assert (a + b)[1..] == a[1..] + b;
      TextOfConcat(a[1..], b);
    }
  }
}
