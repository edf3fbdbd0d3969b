/** What the WG-VPN chain lets through, against what the sessions' users are granted. */
module SessionTraffic {
  import opened Options
  import opened Prefixes
  import opened Iptables
  import opened IPPool
  import opened Sessions
  import opened SessionFacts
  import Firewall
  import Ports
  import PortTexts
  import Text

  /** A resource without a port list, or with one that is valid as it stands. */
  predicate ValidRow(row: ResourceRow) {
    row.ports.None? || Ports.Valid(row.ports.value)
  }

  /** Whatever port list the admin interface stores is one. */
  lemma StoredRowIsValid(row: ResourceRow, raw: Option<string>)
    requires Ports.Store(raw) == Some(row.ports)
    ensures ValidRow(row)
  {
    if row.ports.Some? {
      Ports.StoredMeansWrittenIff(raw.value, row.ports.value);
    }
  }

  predicate ValidGrants(st: State) {
    forall access :: access in st.grants ==> forall i :: 0 <= i < |st.grants[access]| ==> ValidRow(st.grants[access][i])
  }

  /** A resource's own reading of a packet: its network, and its ports for TCP and UDP. */
  predicate RowAllows(row: ResourceRow, p: Packet) {
    row.Network().Contains(32, p.dst) &&
    (row.ports.None? || Ports.Normalize(row.ports.value) == "" || PortAllowed(Ports.ParseSpecs(row.ports.value), p))
  }

  predicate PortAllowed(specs: Option<seq<Ports.PortRange>>, p: Packet) {
    specs.Some? && p.proto != OtherProto && exists i :: 0 <= i < |specs.value| && specs.value[i].Has(p.port)
  }

  /** Session sid's user may send packet p. */
  predicate SessionAllows(st: State, sid: SessionID, p: Packet) {
    && sid in st.sessions && p.src == st.sessions[sid].ip
    && var access := (st.sessions[sid].server, st.sessions[sid].user);
       access in st.grants && exists i :: 0 <= i < |st.grants[access]| && RowAllows(st.grants[access][i], p)
  }

  lemma MaskedMatchesSame(cidr: Prefix, dst: nat)
    ensures cidr.Masked().Contains(32, dst) <==> cidr.Contains(32, dst)
  {
    MaskedSameBlock(cidr);
  }

  lemma {:induction false} PortRulesMeaning(ip: nat, cidr: Prefix, proto: Proto, specs: seq<Ports.PortRange>, p: Packet)
    ensures Accepts(Firewall.ForProto(ip, cidr, proto, specs), p) <==>
            p.src == ip && cidr.Contains(32, p.dst) && p.proto == proto && exists i ::
              0 <= i < |specs| && specs[i].Has(p.port)
  {
    var rules := Firewall.ForProto(ip, cidr, proto, specs);
    MaskedMatchesSame(cidr, p.dst);
    if Accepts(rules, p) {
      var r :| r in rules && r.Matches(p);
      var k :| 0 <= k < |rules| && rules[k] == r;
      assert specs[k].Has(p.port);
    }
    if p.src == ip && cidr.Contains(32, p.dst) && p.proto == proto && exists i ::
      0 <= i < |specs| && specs[i].Has(p.port) {
      var i :| 0 <= i < |specs| && specs[i].Has(p.port);
      assert rules[i] in rules && rules[i].Matches(p);
    }
  }

  lemma OneRuleMeaning(only: ChainRule, p: Packet)
    ensures Accepts([only], p) <==> only.Matches(p)
  {
    assert only in [only];
  }

  lemma OpenRuleMatches(only: ChainRule, ip: nat, cidr: Prefix, p: Packet)
    requires only == ChainRule(ip, cidr.Masked(), AnyL4)
    ensures Accepts([only], p) <==> p.src == ip && cidr.Contains(32, p.dst)
  {
    MaskedMatchesSame(cidr, p.dst);
    OneRuleMeaning(only, p);
  }

  lemma OpenRuleMeaning(ip: nat, cidr: Prefix, none: string, p: Packet)
    requires Text.Trim(none) == ""
    ensures Firewall.Expand(ip, Firewall.Rule(cidr, none)).Some?
    ensures Accepts(Firewall.Expand(ip, Firewall.Rule(cidr, none)).value, p)
            <==> p.src == ip && cidr.Contains(32, p.dst)
  {
    OpenRuleMatches(ChainRule(ip, cidr.Masked(), AnyL4), ip, cidr, p);
  }

  lemma {:induction false} BothProtocols(ip: nat, cidr: Prefix, specs: seq<Ports.PortRange>, p: Packet)
    ensures Accepts(Firewall.ForProto(ip, cidr, Tcp, specs) + Firewall.ForProto(ip, cidr, Udp, specs), p) <==>
            p.src == ip && cidr.Contains(32, p.dst) && PortAllowed(Some(specs), p)
  {
    PortRulesMeaning(ip, cidr, Tcp, specs, p);
    PortRulesMeaning(ip, cidr, Udp, specs, p);
  }

  lemma PortListMeaning(ip: nat, cidr: Prefix, ports: string, p: Packet)
    requires Text.Trim(ports) != "" && Ports.ParseSpecs(ports).Some?
    ensures Firewall.Expand(ip, Firewall.Rule(cidr, ports)).Some?
    ensures Accepts(Firewall.Expand(ip, Firewall.Rule(cidr, ports)).value, p) <==>
            p.src == ip && cidr.Contains(32, p.dst) && PortAllowed(Ports.ParseSpecs(ports), p)
  {
    BothProtocols(ip, cidr, Ports.ParseSpecs(ports).value, p);
  }

  /** The chain rules of one validated resource accept exactly what the resource allows from the client. */
  lemma ResourceMeaning(ip: nat, row: ResourceRow, p: Packet)
    requires ValidRow(row)
    ensures Firewall.Expand(ip, RuleOf(row)).Some?
    ensures Accepts(Firewall.Expand(ip, RuleOf(row)).value, p) <==> p.src == ip && RowAllows(row, p)
  {
    if row.ports.None? || Ports.Normalize(row.ports.value) == "" {
      Text.TrimTrimmed("");
      OpenRuleMeaning(ip, row.Network(), "", p);
    } else {
      Ports.NormalizeKeepsValid(row.ports.value, Ports.Normalize(row.ports.value));
      PortListMeaning(ip, row.Network(), Ports.Normalize(row.ports.value), p);
    }
  }

  /** A host is one address, a network those that agree with its address in the first bits. */
  predicate InResource(row: ResourceRow, dst: nat) {
    if row.network && row.mask.Some? then
      row.mask.value <= 32 && dst / Pow2(32 - row.mask.value) == row.ip / Pow2(32 - row.mask.value)
    else dst == row.ip
  }

  lemma NetworkMeaning(row: ResourceRow, dst: nat)
    requires row.network && row.mask.Some? ==> row.mask.value <= 32
    ensures row.Network().Contains(32, dst) <==> InResource(row, dst)
  {
    assert Pow2(0) == 1;
  }

  /** A resource with a port list in any spelling lets its client reach exactly those ports of its addresses. */
  lemma {:induction false} WrittenResourceMeaning(ip: nat, row: ResourceRow, texts: seq<string>,
      es: seq<PortTexts.Entry>, p: Packet)
    requires row.ports == Some(Text.Join(texts, ",")) && PortTexts.Writes(texts, es)
    requires PortTexts.AllInBounds(es) && PortTexts.Bounds(es) != []
    requires row.network && row.mask.Some? ==> row.mask.value <= 32
    ensures Firewall.Expand(ip, RuleOf(row)).Some?
    ensures Accepts(Firewall.Expand(ip, RuleOf(row)).value, p) <==>
            p.src == ip && InResource(row, p.dst) && p.proto in {Tcp, Udp} && PortTexts.AdmittedBy(es, p.port)
  {
    PortTexts.ListReads(texts, es);
    PortTexts.AdmittedIff(es, p.port);
    NetworkMeaning(row, p.dst);
    ResourceMeaning(ip, row, p);
    ListIsNotEmpty(row.ports.value);
  }

  lemma ListIsNotEmpty(raw: string)
    requires Ports.ParseSpecs(raw).Some?
    ensures Ports.Normalize(raw) != "" && Ports.Valid(raw)
  {
  }

  /** Without a list, or with one that says all, every protocol and port of its addresses. */
  lemma {:induction false} OpenResourceMeaning(ip: nat, row: ResourceRow, a: string, word: string, b: string, p: Packet)
    requires row.ports.None? || row.ports == Some(a + word + b)
    requires Text.AllSpace(a) && Text.AllSpace(b) && Text.Lower(word) in {"", "all", "all ports"}
    requires row.network && row.mask.Some? ==> row.mask.value <= 32
    ensures Firewall.Expand(ip, RuleOf(row)).Some?
    ensures Accepts(Firewall.Expand(ip, RuleOf(row)).value, p) <==> p.src == ip && InResource(row, p.dst)
  {
    PortTexts.AllMeansEvery(a, word, b);
    NetworkMeaning(row, p.dst);
    ResourceMeaning(ip, row, p);
  }

  lemma {:induction false} PlanAt(ip: nat, rows: seq<ResourceRow>, plan: Plan, i: nat)
    requires plan == Firewall.PlanFor(ip, RulesOf(rows)) && i < |rows|
    ensures |plan| == |rows| && plan[i] == Firewall.Expand(ip, RuleOf(rows[i]))
  {
    RulesAt(rows, i);
  }

  lemma CallsMeaning(ip: nat, row: ResourceRow, plan: Plan, i: nat, p: Packet)
    requires i < |plan| && plan[i] == Firewall.Expand(ip, RuleOf(row)) && ValidRow(row)
    ensures Accepts(Calls(plan, i), p) <==> p.src == ip && RowAllows(row, p)
  {
    ResourceMeaning(ip, row, p);
  }

  lemma {:induction false} PlanMeaning(ip: nat, rows: seq<ResourceRow>, plan: Plan, p: Packet)
    requires plan == Firewall.PlanFor(ip, RulesOf(rows)) && |plan| == |rows| && forall i ::
             0 <= i < |rows| ==> ValidRow(rows[i])
    ensures (exists c :: InPlan(plan, c) && c.Matches(p)) <==> p.src == ip && exists i ::
            0 <= i < |rows| && RowAllows(rows[i], p)
  {
    forall i | 0 <= i < |rows| ensures Accepts(Calls(plan, i), p) <==> p.src == ip && RowAllows(rows[i], p) {
      PlanAt(ip, rows, plan, i);
      CallsMeaning(ip, rows[i], plan, i, p);
    }
    if p.src == ip && exists i :: 0 <= i < |rows| && RowAllows(rows[i], p) {
      var i :| 0 <= i < |rows| && RowAllows(rows[i], p);
      assert Accepts(Calls(plan, i), p);
      var c :| c in Calls(plan, i) && c.Matches(p);
      assert InPlan(plan, c);
    }
    forall c | InPlan(plan, c) && c.Matches(p) ensures p.src == ip && exists i ::
      0 <= i < |rows| && RowAllows(rows[i], p) {
      var i: nat :| i < |plan| && c in Calls(plan, i);
      assert Accepts(Calls(plan, i), p);
    }
  }

  lemma SessionMeaning(st: State, sid: SessionID, p: Packet)
    requires ValidGrants(st)
    ensures SessionAllows(st, sid, p) <==> exists c :: Owns(st, sid, c) && c.Matches(p)
  {
    if sid in st.sessions {
      var s := st.sessions[sid];
      var plan := PlanOf(st, s);
      PlanMeaning(s.ip, Granted(st.grants, s.server, s.user), plan, p);
      assert forall c :: Owns(st, sid, c) <==> InPlan(plan, c);
    }
  }

  /** The chain accepts a packet exactly when some live session's grants allow it from that session's address. */
  lemma ChainIsExact(st: State, p: Packet)
    requires Inv(st) && ValidGrants(st)
    ensures Accepts(st.chain, p) <==> exists sid :: SessionAllows(st, sid, p)
  {
    if Accepts(st.chain, p) {
      var c :| c in st.chain && c.Matches(p);
      var sid :| Owns(st, sid, c);
      SessionMeaning(st, sid, p);
    }
    forall sid | SessionAllows(st, sid, p) ensures Accepts(st.chain, p) {
      SessionMeaning(st, sid, p);
    }
  }
}
