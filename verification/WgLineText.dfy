/** How written lines are understood: names, headers and entries. */
module WgLineText {
  import opened Text
  import opened WgLines

  // ---- Lines ---------------------------------------------------------------------

  /** Every one of the texts stays on one line. */
  predicate NoNewlines(lines: seq<string>) {
    forall i :: 0 <= i < |lines| ==> '\n' !in lines[i]
  }

  lemma {:induction false} LinesOfText(lines: seq<string>)
    requires NoNewlines(lines)
    ensures Split(TextOf(lines), '\n') == lines + [""]
  {
    if lines != [] {
      LinesOfText(lines[1..]);
      SplitCons(lines[0], '\n', TextOf(lines[1..]));
      assert [lines[0]] + (lines[1..] + [""]) == lines + [""];
    }
  }

  predicate PlainName(name: string) {
    name != "" && Trimmed(name) && '=' !in name && name[0] != '#' && name[0] != ';' && name[0] != '['
  }

  lemma {:induction false} PrivateKeyName(name: string)
    requires name == NameOf(PrivateKey)
    ensures KeyOf(Lower(name)) == PrivateKey
  {
    LowerIs(name, "privatekey");
  }

  lemma {:induction false} ShortNames(name: string, key: Key)
    requires key.Address? || key.DNS? || key.MTU?
    requires name == NameOf(key)
    ensures KeyOf(Lower(name)) == key
  {
    match key
    case Address => LowerIs(name, "address");
    case DNS => LowerIs(name, "dns");
    case MTU => LowerIs(name, "mtu");
  }

  lemma {:induction false} ListenPortName(name: string)
    requires name == NameOf(ListenPort)
    ensures KeyOf(Lower(name)) == ListenPort
  {
    LowerIs(name, "listenport");
    assert Lower(name)[0] == 'l';
  }

  lemma {:induction false} AllowedIPsName(name: string)
    requires name == NameOf(AllowedIPs)
    ensures KeyOf(Lower(name)) == AllowedIPs
  {
    LowerIs(name, "allowedips");
    assert Lower(name)[0] == 'a' && Lower(name)[1] == 'l';
  }

  lemma {:induction false} KeepaliveName(name: string)
    requires name == NameOf(PersistentKeepalive)
    ensures KeyOf(Lower(name)) == PersistentKeepalive
  {
    LowerIs(name, "persistentkeepalive");
  }

  lemma {:induction false} PublicKeyName(name: string)
    requires name == NameOf(PublicKey)
    ensures KeyOf(Lower(name)) == PublicKey
  {
    LowerIs(name, "publickey");
    assert Lower(name)[1] == 'u';
  }

  lemma {:induction false} PresharedKeyName(name: string)
    requires name == NameOf(PresharedKey)
    ensures KeyOf(Lower(name)) == PresharedKey
  {
    LowerIs(name, "presharedkey");
    assert Lower(name)[2] == 'e';
  }

  lemma {:induction false} EndpointName(name: string)
    requires name == NameOf(Endpoint)
    ensures KeyOf(Lower(name)) == Endpoint
  {
    LowerIs(name, "endpoint");
    assert Lower(name)[0] == 'e';
  }

  lemma KeyName(key: Key)
    requires key != OtherKey
    ensures KeyOf(Lower(NameOf(key))) == key
  {
    match key
    case AllowedIPs => AllowedIPsName(NameOf(key));
    case PersistentKeepalive => KeepaliveName(NameOf(key));
    case PublicKey => PublicKeyName(NameOf(key));
    case PresharedKey => PresharedKeyName(NameOf(key));
    case Endpoint => EndpointName(NameOf(key));
    case PrivateKey => PrivateKeyName(NameOf(key));
    case ListenPort => ListenPortName(NameOf(key));
    case _ => ShortNames(NameOf(key), key);
  }

  lemma {:induction false} EqualsAt(name: string, t: string, val: string)
    requires '=' !in name && t == name + " =" + val
    ensures Find(t, '=') == |name| + 1 < |t|
  {
    var key := name + " ";
    assert t == key + ['='] + val;
    FindAt(key, '=', val);
  }

  lemma KeyBefore(name: string, t: string, val: string)
    requires PlainName(name) && t == name + " =" + val
    ensures |name| + 1 < |t| && Trim(t[..|name| + 1]) == name && t[|name| + 2..] == val
  {
    assert t[..|name| + 1] == "" + name + " ";
    TrimPad("", name, " ");
  }

  lemma {:induction false} ClassifyCore(name: string, t: string, val: string)
    requires PlainName(name) && t == name + " =" + val
    ensures ClassifyText(t) == Entry(KeyOf(Lower(name)), ReadValue(val))
  {
    assert t[0] == name[0];
    EqualsAt(name, t, val);
    KeyBefore(name, t, val);
  }

  lemma NamesArePlain(key: Key)
    requires key != OtherKey
    ensures PlainName(NameOf(key))
  {
  }

  lemma EntryHead(name: string, v: string, line: string, head: string)
    requires PlainName(name) && head == name + " =" && line == name + " = " + v
    ensures line == head + (" " + v) && Trimmed(head) && head != ""
  {
  }

  /** A written entry reads as its key with what is kept of its value. */
  lemma EntryReads(key: Key, v: string, line: string)
    requires key != OtherKey && line == EntryLine(key, v)
    ensures Classify(line) == Entry(key, ReadValue(v))
  {
    NamesArePlain(key);
    var head := NameOf(key) + " =";
    EntryHead(NameOf(key), v, line, head);
    var val := TrimTail(head, " " + v);
    ClassifyCore(NameOf(key), Trim(line), val);
    KeyName(key);
  }

  lemma ClassifyBracketed(t: string)
    requires IsHeader(t)
    ensures ClassifyText(t) == HeaderOf(t)
  {
  }

  lemma NamedHeader(raw: string, low: string)
    requires Trimmed(raw) && IsHeader(raw) && Lower(raw[1..|raw| - 1]) == low
    ensures Classify(raw) == Header(SectionOf(low))
  {
    ClassifyBracketed(raw);
    TrimTrimmed(raw);
  }

  lemma InterfaceHeader(raw: string)
    requires raw == "[Interface]"
    ensures Classify(raw) == Header(InInterface)
  {
    LowerIs(raw[1..|raw| - 1], "interface");
    NamedHeader(raw, "interface");
  }

  lemma PeerHeader(raw: string)
    requires raw == "[Peer]"
    ensures Classify(raw) == Header(InPeer)
  {
    LowerIs(raw[1..|raw| - 1], "peer");
    NamedHeader(raw, "peer");
  }
}
