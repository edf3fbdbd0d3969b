/** The configuration text of a session of the manager, with its addresses and networks written out. */
module SessionTexts {
  import opened Options
  import opened Text
  import opened WgLines
  import opened WgLineText
  import opened WgConfig
  import opened WgLists
  import opened Dedup
  import opened Prefixes
  import Sessions
  import SessionConfig

  // ---- Addresses, networks and keys as text --------------------------------------------

  function Dotted(a: nat): string {
    Itoa(a / 0x100_0000) + "." + Itoa(a / 0x1_0000 % 256) + "." + Itoa(a / 256 % 256) + "." + Itoa(a % 256)
  }

  function NetworkText(p: Prefix): string {
    Dotted(p.addr) + "/" + Itoa(p.bits)
  }

  predicate NetworkChar(c: char) {
    IsDigit(c) || c == '.' || c == '/'
  }

  /** Characters of base64 text. */
  predicate KeyChar(c: char) {
    IsDigit(c) || 'a' <= c <= 'z' || 'A' <= c <= 'Z' || c == '+' || c == '/' || c == '='
  }

  predicate KeyText(s: string) {
    s != "" && forall i :: 0 <= i < |s| ==> KeyChar(s[i])
  }

  predicate NetworkChars(s: string) {
    s != "" && forall i :: 0 <= i < |s| ==> NetworkChar(s[i])
  }

  lemma JoinChars(a: string, sep: char, b: string)
    requires NetworkChars(a) && NetworkChar(sep) && NetworkChars(b)
    ensures NetworkChars(a + [sep] + b)
  {
  }

  lemma {:induction false} ItoaChars(n: nat)
    ensures NetworkChars(Itoa(n))
  {
    var s := Itoa(n);
    assert forall i :: 0 <= i < |s| ==> IsDigit(s[i]);
  }

  lemma NetworkTextChars(p: Prefix)
    ensures NetworkChars(NetworkText(p))
  {
    ItoaChars(p.bits);
    JoinChars(Dotted(p.addr), '/', Itoa(p.bits));
  }

  lemma NetworkIsSound(s: string)
    requires NetworkChars(s)
    ensures SoundItem(s) && s[0] != '#' && SessionConfig.Bare(s) && '\n' !in s
  {
  }

  lemma KeyIsClean(s: string)
    requires KeyText(s)
    ensures CleanValue(s) && SessionConfig.Bare(s)
  {
  }

  // ---- Read back ---------------------------------------------------------------------------

  predicate IsByte(s: string) {
    Atoi(s).Some? && 0 <= Atoi(s).value <= 255
  }

  /** Four numbers of 0 to 255 with dots between them, the first the most significant. */
  function ReadAddress(s: string): Option<int> {
    var parts := Split(s, '.');
    if |parts| == 4 && IsByte(parts[0]) && IsByte(parts[1]) && IsByte(parts[2]) && IsByte(parts[3]) then
      Some(((Atoi(parts[0]).value * 256 + Atoi(parts[1]).value) * 256 + Atoi(parts[2]).value) * 256
           + Atoi(parts[3]).value)
    else None
  }

  lemma {:induction false} SplitFour(a: string, b: string, c: string, d: string)
    requires AllDigits(a) && AllDigits(b) && AllDigits(c) && AllDigits(d)
    ensures Split(a + "." + b + "." + c + "." + d, '.') == [a, b, c, d]
  {
    assert a + "." + b + "." + c + "." + d == a + ['.'] + (b + ['.'] + (c + ['.'] + d));
    SplitCons(a, '.', b + ['.'] + (c + ['.'] + d));
    SplitCons(b, '.', c + ['.'] + d);
    SplitCons(c, '.', d);
    SplitNone(d, '.');
  }

  /** An address of four bytes reads back as itself. */
  lemma {:induction false} AddressReadsBack(a: nat)
    requires a < 0x1_0000_0000
    ensures ReadAddress(Dotted(a)) == Some(a)
  {
    var x, y, z := a / 0x100_0000, a / 0x1_0000 % 256, a / 256 % 256;
    SplitFour(Itoa(x), Itoa(y), Itoa(z), Itoa(a % 256));
    AtoiItoa(x);
    AtoiItoa(y);
    AtoiItoa(z);
    AtoiItoa(a % 256);
    BytesOf(a, a / 256, a / 0x1_0000);
  }

  lemma BytesOf(a: nat, b: nat, c: nat)
    requires b == a / 256 && c == a / 0x1_0000
    ensures a == b * 256 + a % 256 && b == c * 256 + b % 256 && c == a / 0x100_0000 * 256 + c % 256
  {
  }

  lemma {:induction false} DottedHasNoSlash(a: nat)
    ensures '/' !in Dotted(a)
  {
    var x, y, z, w := Itoa(a / 0x100_0000), Itoa(a / 0x1_0000 % 256), Itoa(a / 256 % 256), Itoa(a % 256);
    assert '/' !in x && '/' !in y && '/' !in z && '/' !in w;
  }

  /** A network's text is its first address and the length of its prefix. */
  lemma {:induction false} NetworkReadsBack(p: Prefix)
    requires p.addr < 0x1_0000_0000
    ensures var parts := Split(NetworkText(p), '/');
            |parts| == 2 && ReadAddress(parts[0]) == Some(p.addr) && Atoi(parts[1]) == Some(p.bits)
  {
    AddressReadsBack(p.addr);
    DottedHasNoSlash(p.addr);
    AtoiItoa(p.bits);
    assert NetworkText(p) == Dotted(p.addr) + ['/'] + Itoa(p.bits);
    SplitCons(Dotted(p.addr), '/', Itoa(p.bits));
    SplitNone(Itoa(p.bits), '/');
  }

  /** A resource is written with its address, and with the length of its mask if it is a network that has one. */
  lemma {:induction false} ResourceReadsBack(row: Sessions.ResourceRow)
    requires row.ip < 0x1_0000_0000
    ensures var parts := Split(NetworkText(row.Network()), '/');
            && |parts| == 2 && ReadAddress(parts[0]) == Some(row.ip)
            && Atoi(parts[1]) == Some(if row.network && row.mask.Some? then row.mask.value else 32)
  {
    NetworkReadsBack(row.Network());
  }

  // ---- The text of a session -----------------------------------------------------------------

  function NetworkTexts(rows: seq<Sessions.ResourceRow>): (r: seq<string>)
    ensures |r| == |rows| && forall i :: 0 <= i < |rows| ==> r[i] == NetworkText(rows[i].Network())
  {
    if rows == [] then [] else [NetworkText(rows[0].Network())] + NetworkTexts(rows[1..])
  }

  /** The networks a session's user is granted. */
  function Networks(st: Sessions.State, s: Sessions.Session): seq<string> {
    NetworkTexts(Sessions.Granted(st.grants, s.server, s.user))
  }

  /** What the manager fills into the text: from its stores, and from the server's row. */
  function Filled(st: Sessions.State, sid: string, subnet: Prefix, dns: string, serverKey: string,
      endpoint: string): SessionConfig.Session
    requires sid in st.sessions && sid in st.psks
  {
    var s := st.sessions[sid];
    SessionConfig.Session(Dotted(s.ip), dns, serverKey, st.psks[sid], endpoint,
                          Join(SessionConfig.AllowedItems(NetworkText(subnet), Networks(st, s)), ", "))
  }

  predicate AllNetworks(items: seq<string>) {
    forall i :: 0 <= i < |items| ==> NetworkChars(items[i])
  }

  lemma NetworksAreNetworks(st: Sessions.State, s: Sessions.Session)
    ensures AllNetworks(Networks(st, s))
  {
    var rows := Sessions.Granted(st.grants, s.server, s.user);
    forall i | 0 <= i < |rows| ensures NetworkChars(NetworkTexts(rows)[i]) {
      NetworkTextChars(rows[i].Network());
    }
  }

  lemma AllowedAreNetworks(subnet: Prefix, cidrs: seq<string>)
    requires AllNetworks(cidrs)
    ensures AllNetworks(SessionConfig.AllowedItems(NetworkText(subnet), cidrs))
  {
    var first, rest := NetworkText(subnet), Firsts({NetworkText(subnet)}, cidrs);
    NetworkTextChars(subnet);
    forall i | 0 <= i < |rest| ensures NetworkChars(rest[i]) {
      FirstsMembers({first}, cidrs, rest[i]);
    }
  }

  lemma NetworksAreClean(items: seq<string>)
    requires AllNetworks(items)
    ensures CleanItems(items) && NoNewlines(items)
  {
    forall i | 0 <= i < |items| ensures SoundItem(items[i]) && items[i][0] != '#' && '\n' !in items[i] {
      NetworkIsSound(items[i]);
    }
  }

  lemma {:induction false} JoinIsBare(items: seq<string>, sep: string)
    requires AllNetworks(items) && SessionConfig.Bare(sep)
    ensures SessionConfig.Bare(Join(items, sep))
  {
    if items != [] {
      NetworkIsSound(items[0]);
      if |items| > 1 {
        JoinIsBare(items[1..], sep);
      }
    }
  }

  lemma AddressIsSound(a: nat)
    ensures SessionConfig.Bare(Dotted(a)) && SoundItem(Dotted(a) + "/32")
  {
    NetworkIsSound(Dotted(a));
    var s := Dotted(a) + "/32";
    assert NetworkChars(s);
    NetworkIsSound(s);
  }

  /**
   * What the manager fills in needs no further conditions than keys that look like keys and a one-line DNS setting and
   * endpoint.
   */
  lemma FilledIsClean(st: Sessions.State, sid: string, subnet: Prefix, dns: string, serverKey: string, endpoint: string)
    requires sid in st.sessions && sid in st.psks && KeyText(st.psks[sid]) && KeyText(serverKey)
    requires SessionConfig.Bare(dns) && SessionConfig.Bare(endpoint)
    ensures var items := SessionConfig.AllowedItems(NetworkText(subnet), Networks(st, st.sessions[sid]));
            var f := Filled(st, sid, subnet, dns, serverKey, endpoint);
            SessionConfig.BareSession(f) && NoNewlines(items) && SessionConfig.CleanSession(f, items)
  {
    var cidrs := Networks(st, st.sessions[sid]);
    var items := SessionConfig.AllowedItems(NetworkText(subnet), cidrs);
    NetworksAreNetworks(st, st.sessions[sid]);
    AllowedAreNetworks(subnet, cidrs);
    NetworksAreClean(items);
    JoinIsBare(items, ", ");
    AddressIsSound(st.sessions[sid].ip);
    KeyIsClean(serverKey);
    KeyIsClean(st.psks[sid]);
  }

  /**
   * For any session of the manager: parsing what the client makes of its text gives the client's key, the address it
   * was assigned, the server's key, the session's preshared key, the chosen endpoint, and the subnet followed by the
   * distinct networks its user is granted.
   */
  lemma ManagedSessionEndToEnd(st: Sessions.State, sid: string, subnet: Prefix, dns: string, serverKey: string,
      serverEndpoint: string, key: string, endpoint: string)
    requires sid in st.sessions && sid in st.psks && KeyText(st.psks[sid]) && KeyText(serverKey) && KeyText(key)
    requires SessionConfig.Bare(dns) && SessionConfig.Bare(serverEndpoint)
    requires endpoint != "" && SessionConfig.Bare(endpoint) && CleanValue(endpoint)
    ensures var s := st.sessions[sid];
            var text := SessionConfig.SessionText(Filled(st, sid, subnet, dns, serverKey, serverEndpoint));
            Parse(SessionConfig.ReplaceEndpoint(SessionConfig.InjectKey(text, key), endpoint)) ==
            Some(Config(Interface(key, [Dotted(s.ip) + "/32"], if dns == "" then [] else ReadList(ReadValue(dns)),
                                  1420, 0),
                        [Peer(serverKey, st.psks[sid], SessionConfig.AllowedItems(NetworkText(subnet), Networks(st, s)),
                              endpoint, 25)]))
  {
    FilledIsClean(st, sid, subnet, dns, serverKey, serverEndpoint);
    KeyIsClean(key);
    SessionConfig.SessionConfigEndToEnd(Filled(st, sid, subnet, dns, serverKey, serverEndpoint), NetworkText(subnet),
                                        Networks(st, st.sessions[sid]), key, endpoint);
  }
}
