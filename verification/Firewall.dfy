/** The WG-VPN chain and the iptables calls on it (server/internal/firewall/iptables.go). */
module Iptables {
  import opened Options
  import opened Prefixes
  import Ports

  datatype Proto = Tcp | Udp | OtherProto

  datatype Packet = Packet(src: nat, dst: nat, proto: Proto, port: nat)

  datatype L4 = AnyL4 | ToPort(proto: Proto, range: Ports.PortRange)

  /** A rule as the kernel holds it: source host, masked destination network, optional port match. */
  datatype ChainRule = ChainRule(src: nat, dst: Prefix, l4: L4) {
    predicate Matches(p: Packet) {
      p.src == src && dst.Contains(32, p.dst) &&
      match l4
      case AnyL4 => true
      case ToPort(proto, range) => p.proto == proto && range.Has(p.port)
    }
  }

  predicate Accepts(chain: seq<ChainRule>, p: Packet) {
    exists r :: r in chain && r.Matches(p)
  }

  predicate NoDup(chain: seq<ChainRule>) {
    forall i, j :: 0 <= i < j < |chain| ==> chain[i] != chain[j]
  }

  /** The calls for each resource of a list, in order; None for a resource whose port list does not parse. */
  type Plan = seq<Option<seq<ChainRule>>>

  function Calls(plan: Plan, i: nat): seq<ChainRule>
    requires i < |plan|
  {
    if plan[i].Some? then plan[i].value else []
  }

  predicate InPlan(plan: Plan, c: ChainRule) {
    exists i: nat :: i < |plan| && c in Calls(plan, i)
  }

  /** AppendUnique, when the call succeeds. */
  function AppendUnique(chain: seq<ChainRule>, c: ChainRule): seq<ChainRule> {
    if c in chain then chain else chain + [c]
  }

  /** DeleteIfExists, when the call succeeds: iptables -D drops the first match. */
  function DeleteIfExists(chain: seq<ChainRule>, c: ChainRule): seq<ChainRule> {
    if chain == [] then []
    else if chain[0] == c then chain[1..]
    else [chain[0]] + DeleteIfExists(chain[1..], c)
  }

  // ok(i, j) is the outcome of the j-th iptables call for the i-th resource.

  /** The appends of one resource from the j-th on; stops at the first call that fails. */
  function AppendFrom(chain: seq<ChainRule>, specs: seq<ChainRule>, i: nat, j: nat, ok: (nat, nat) -> bool)
    : (seq<ChainRule>, bool)
    requires j <= |specs|
    decreases |specs| - j
  {
    if j == |specs| then (chain, true)
    else if !ok(i, j) then (chain, false)
    else AppendFrom(AppendUnique(chain, specs[j]), specs, i, j + 1, ok)
  }

  function AddOne(chain: seq<ChainRule>, plan: Plan, i: nat, ok: (nat, nat) -> bool): (seq<ChainRule>, bool)
    requires i < |plan|
  {
    if plan[i].None? then (chain, false) else AppendFrom(chain, plan[i].value, i, 0, ok)
  }

  /** All resources from the i-th on; goes on past one that failed. */
  function AddFrom(chain: seq<ChainRule>, plan: Plan, i: nat, ok: (nat, nat) -> bool): (seq<ChainRule>, bool)
    requires i <= |plan|
    decreases |plan| - i
  {
    if i == |plan| then (chain, true)
    else
      var (c1, ok1) := AddOne(chain, plan, i, ok);
      var (c2, ok2) := AddFrom(c1, plan, i + 1, ok);
      (c2, ok1 && ok2)
  }

  /** The deletions of one resource from the j-th on; goes on past a call that fails. */
  function DeleteFrom(chain: seq<ChainRule>, specs: seq<ChainRule>, i: nat, j: nat,
      ok: (nat, nat) -> bool): seq<ChainRule>
    requires j <= |specs|
    decreases |specs| - j
  {
    if j == |specs| then chain
    else DeleteFrom(if ok(i, j) then DeleteIfExists(chain, specs[j]) else chain, specs, i, j + 1, ok)
  }

  function RemoveFrom(chain: seq<ChainRule>, plan: Plan, i: nat, ok: (nat, nat) -> bool): seq<ChainRule>
    requires i <= |plan|
    decreases |plan| - i
  {
    if i == |plan| then chain
    else RemoveFrom(DeleteFrom(chain, Calls(plan, i), i, 0, ok), plan, i + 1, ok)
  }

  // ---- What adding leaves in the chain ----------------------------------------

  lemma AppendUniqueFacts(chain: seq<ChainRule>, c: ChainRule)
    ensures var after := AppendUnique(chain, c);
            chain <= after && c in after && (NoDup(chain) ==> NoDup(after)) &&
            forall k :: |chain| <= k < |after| ==> after[k] == c
  {
  }

  lemma {:induction false} AppendFromFacts(chain: seq<ChainRule>, specs: seq<ChainRule>, i: nat, j: nat,
      ok: (nat, nat) -> bool)
    requires j <= |specs|
    ensures var (after, done) := AppendFrom(chain, specs, i, j, ok);
            && chain <= after
            && (NoDup(chain) ==> NoDup(after))
            && (forall k :: |chain| <= k < |after| ==> after[k] in specs)
            && (done ==> forall m :: j <= m < |specs| ==> specs[m] in after)
    decreases |specs| - j
  {
    if j < |specs| && ok(i, j) {
      AppendUniqueFacts(chain, specs[j]);
      AppendFromFacts(AppendUnique(chain, specs[j]), specs, i, j + 1, ok);
    }
  }

  lemma AddOneFacts(chain: seq<ChainRule>, plan: Plan, i: nat, ok: (nat, nat) -> bool)
    requires i < |plan|
    ensures var (after, done) := AddOne(chain, plan, i, ok);
            && chain <= after
            && (NoDup(chain) ==> NoDup(after))
            && (forall k :: |chain| <= k < |after| ==> after[k] in Calls(plan, i))
            && (done ==> plan[i].Some? && forall c :: c in Calls(plan, i) ==> c in after)
  {
    if plan[i].Some? {
      AppendFromFacts(chain, plan[i].value, i, 0, ok);
    }
  }

  /** after is chain with planned rules behind it. */
  ghost predicate Grown(chain: seq<ChainRule>, after: seq<ChainRule>, plan: Plan) {
    chain <= after && (NoDup(chain) ==> NoDup(after)) && forall k :: |chain| <= k < |after| ==> InPlan(plan, after[k])
  }

  lemma AddOneGrows(chain: seq<ChainRule>, plan: Plan, i: nat, ok: (nat, nat) -> bool)
    requires i < |plan|
    ensures Grown(chain, AddOne(chain, plan, i, ok).0, plan)
  {
    AddOneFacts(chain, plan, i, ok);
    var after := AddOne(chain, plan, i, ok).0;
    forall k | |chain| <= k < |after| ensures InPlan(plan, after[k]) {
      assert after[k] in Calls(plan, i);
    }
  }

  lemma {:induction false} AddGrows(chain: seq<ChainRule>, plan: Plan, i: nat, ok: (nat, nat) -> bool)
    requires i <= |plan|
    ensures Grown(chain, AddFrom(chain, plan, i, ok).0, plan)
    decreases |plan| - i
  {
    if i < |plan| {
      var mid := AddOne(chain, plan, i, ok).0;
      AddOneGrows(chain, plan, i, ok);
      AddGrows(mid, plan, i + 1, ok);
    }
  }

  /** The rules of every resource from the i-th on are there. */
  ghost predicate HasFrom(chain: seq<ChainRule>, plan: Plan, i: nat) {
    forall m: nat :: i <= m < |plan| ==> plan[m].Some? && forall c :: c in Calls(plan, m) ==> c in chain
  }

  lemma {:induction false} AddHas(chain: seq<ChainRule>, plan: Plan, i: nat, ok: (nat, nat) -> bool)
    requires i <= |plan| && AddFrom(chain, plan, i, ok).1
    ensures HasFrom(AddFrom(chain, plan, i, ok).0, plan, i)
    decreases |plan| - i
  {
    if i < |plan| {
      var mid := AddOne(chain, plan, i, ok).0;
      AddOneFacts(chain, plan, i, ok);
      AddHas(mid, plan, i + 1, ok);
      AddGrows(mid, plan, i + 1, ok);
    }
  }

  /** Adding only appends planned rules; when it reports success every planned rule is in the chain. */
  lemma {:induction false} AddFacts(chain: seq<ChainRule>, plan: Plan, i: nat, ok: (nat, nat) -> bool)
    requires i <= |plan|
    ensures var (after, done) := AddFrom(chain, plan, i, ok);
            && chain <= after
            && (NoDup(chain) ==> NoDup(after))
            && (forall k :: |chain| <= k < |after| ==> InPlan(plan, after[k]))
            && (done ==> forall m :: i <= m < |plan| ==> plan[m].Some?)
            && (done ==> forall m: nat, c :: i <= m < |plan| && c in Calls(plan, m) ==> c in after)
  {
    AddGrows(chain, plan, i, ok);
    if AddFrom(chain, plan, i, ok).1 {
      AddHas(chain, plan, i, ok);
    }
  }

  // ---- What removing leaves in the chain --------------------------------------

  /** The chain without the rules in gone, order kept. */
  function Without(chain: seq<ChainRule>, gone: set<ChainRule>): (r: seq<ChainRule>)
    ensures forall c :: c in r <==> c in chain && c !in gone
  {
    if chain == [] then []
    else (if chain[0] in gone then [] else [chain[0]]) + Without(chain[1..], gone)
  }

  lemma {:induction false} WithoutNothing(chain: seq<ChainRule>, gone: set<ChainRule>)
    requires forall c :: c in chain ==> c !in gone
    ensures Without(chain, gone) == chain
  {
    if chain != [] {
      WithoutNothing(chain[1..], gone);
    }
  }

  lemma {:induction false} WithoutConcat(a: seq<ChainRule>, b: seq<ChainRule>, gone: set<ChainRule>)
    ensures Without(a + b, gone) == Without(a, gone) + Without(b, gone)
  {
    if a == [] {
      assert a + b == b;
    } else {
      assert (a + b)[1..] == a[1..] + b;
      WithoutConcat(a[1..], b, gone);
    }
  }

  lemma {:induction false} WithoutTwice(chain: seq<ChainRule>, a: set<ChainRule>, b: set<ChainRule>)
    ensures Without(Without(chain, a), b) == Without(chain, a + b)
  {
    if chain != [] {
      WithoutTwice(chain[1..], a, b);
      var head := if chain[0] in a then [] else [chain[0]];
      WithoutConcat(head, Without(chain[1..], a), b);
      if head != [] {
        assert head[1..] == [];
      }
    }
  }

  lemma {:induction false} WithoutNoDup(chain: seq<ChainRule>, gone: set<ChainRule>)
    requires NoDup(chain)
    ensures NoDup(Without(chain, gone))
  {
    if chain != [] {
      WithoutNoDup(chain[1..], gone);
      assert forall c :: c in Without(chain[1..], gone) ==> c in chain[1..];
    }
  }

  lemma {:induction false} DeleteIsWithout(chain: seq<ChainRule>, c: ChainRule)
    requires NoDup(chain)
    ensures DeleteIfExists(chain, c) == Without(chain, {c})
  {
    if chain != [] {
      if chain[0] == c {
        assert forall k :: 0 < k < |chain| ==> chain[k] != chain[0];
        WithoutNothing(chain[1..], {c});
      } else {
        DeleteIsWithout(chain[1..], c);
      }
    }
  }

  /** The rules whose deletion succeeded at least once. */
  function DeletedSpecs(specs: seq<ChainRule>, i: nat, j: nat, ok: (nat, nat) -> bool): set<ChainRule>
    requires j <= |specs|
  {
    set m | j <= m < |specs| && ok(i, m) :: specs[m]
  }

  function DeletedFrom(plan: Plan, i: nat, ok: (nat, nat) -> bool): set<ChainRule>
    requires i <= |plan|
    decreases |plan| - i
  {
    if i == |plan| then {} else DeletedSpecs(Calls(plan, i), i, 0, ok) + DeletedFrom(plan, i + 1, ok)
  }

  lemma {:induction false} DeleteFromIsWithout(chain: seq<ChainRule>, specs: seq<ChainRule>, i: nat, j: nat,
      ok: (nat, nat) -> bool)
    requires j <= |specs| && NoDup(chain)
    ensures DeleteFrom(chain, specs, i, j, ok) == Without(chain, DeletedSpecs(specs, i, j, ok))
    decreases |specs| - j
  {
    if j == |specs| {
      WithoutNothing(chain, DeletedSpecs(specs, i, j, ok));
    } else if ok(i, j) {
      DeleteIsWithout(chain, specs[j]);
      WithoutNoDup(chain, {specs[j]});
      DeleteFromIsWithout(DeleteIfExists(chain, specs[j]), specs, i, j + 1, ok);
      WithoutTwice(chain, {specs[j]}, DeletedSpecs(specs, i, j + 1, ok));
      assert {specs[j]} + DeletedSpecs(specs, i, j + 1, ok) == DeletedSpecs(specs, i, j, ok);
    } else {
      DeleteFromIsWithout(chain, specs, i, j + 1, ok);
      assert DeletedSpecs(specs, i, j + 1, ok) == DeletedSpecs(specs, i, j, ok);
    }
  }

  /** Removing takes out exactly the rules some deletion succeeded for, keeping the order of the others. */
  lemma {:induction false} RemoveIsWithout(chain: seq<ChainRule>, plan: Plan, i: nat, ok: (nat, nat) -> bool)
    requires i <= |plan| && NoDup(chain)
    ensures RemoveFrom(chain, plan, i, ok) == Without(chain, DeletedFrom(plan, i, ok))
    decreases |plan| - i
  {
    if i == |plan| {
      WithoutNothing(chain, {});
    } else {
      var gone := DeletedSpecs(Calls(plan, i), i, 0, ok);
      DeleteFromIsWithout(chain, Calls(plan, i), i, 0, ok);
      WithoutNoDup(chain, gone);
      RemoveIsWithout(Without(chain, gone), plan, i + 1, ok);
      WithoutTwice(chain, gone, DeletedFrom(plan, i + 1, ok));
    }
  }

  /** Call (m, j) is for rule c and succeeded. */
  predicate DeletedAt(plan: Plan, ok: (nat, nat) -> bool, c: ChainRule, m: nat, j: nat) {
    m < |plan| && j < |Calls(plan, m)| && ok(m, j) && Calls(plan, m)[j] == c
  }

  lemma {:induction false} DeletedMember(plan: Plan, i: nat, ok: (nat, nat) -> bool, c: ChainRule)
    requires i <= |plan|
    ensures c in DeletedFrom(plan, i, ok) <==> exists m: nat, j: nat :: i <= m && DeletedAt(plan, ok, c, m, j)
    decreases |plan| - i
  {
    if i < |plan| {
      DeletedMember(plan, i + 1, ok, c);
      var head := DeletedSpecs(Calls(plan, i), i, 0, ok);
      assert DeletedFrom(plan, i, ok) == head + DeletedFrom(plan, i + 1, ok);
      if c in head {
        var j: nat :| j < |Calls(plan, i)| && ok(i, j) && Calls(plan, i)[j] == c;
        assert DeletedAt(plan, ok, c, i, j);
      }
      forall m: nat, j: nat | i <= m && DeletedAt(plan, ok, c, m, j) ensures c in DeletedFrom(plan, i, ok) {
        if m == i {
          assert c in head;
        }
      }
    }
  }

  /** With every call succeeding, exactly the planned rules are deleted. */
  lemma {:induction false} DeletedWhenAllSucceed(plan: Plan, ok: (nat, nat) -> bool, c: ChainRule)
    requires forall m: nat, j: nat :: ok(m, j)
    ensures c in DeletedFrom(plan, 0, ok) <==> InPlan(plan, c)
  {
    DeletedMember(plan, 0, ok, c);
    if InPlan(plan, c) {
      var m: nat :| m < |plan| && c in Calls(plan, m);
      var j: nat :| j < |Calls(plan, m)| && Calls(plan, m)[j] == c;
      assert DeletedAt(plan, ok, c, m, j);
    }
  }

  lemma {:induction false} DeletedArePlanned(plan: Plan, ok: (nat, nat) -> bool, c: ChainRule)
    requires c in DeletedFrom(plan, 0, ok)
    ensures InPlan(plan, c)
  {
    DeletedMember(plan, 0, ok, c);
  }
}

/** Rules of one client for a list of resources (server/internal/firewall/iptables.go). */
module Firewall {
  import opened Options
  import opened Text
  import opened Prefixes
  import opened Iptables
  import Ports

  /** A resource as the session manager hands it over. */
  datatype Rule = Rule(cidr: Prefix, ports: string)

  function ForProto(ip: nat, cidr: Prefix, proto: Proto, specs: seq<Ports.PortRange>): (r: seq<ChainRule>)
    ensures |r| == |specs|
    ensures forall k :: 0 <= k < |r| ==> r[k] == ChainRule(ip, cidr.Masked(), ToPort(proto, specs[k]))
  {
    if specs == [] then []
    else [ChainRule(ip, cidr.Masked(), ToPort(proto, specs[0]))] + ForProto(ip, cidr, proto, specs[1..])
  }

  /** The iptables calls for one resource, in order; None when its port list does not parse. */
  function Expand(ip: nat, r: Rule): Option<seq<ChainRule>> {
    if Trim(r.ports) == "" then Some([ChainRule(ip, r.cidr.Masked(), AnyL4)])
    else
      var specs :- Ports.ParseSpecs(r.ports);
      Some(ForProto(ip, r.cidr, Tcp, specs) + ForProto(ip, r.cidr, Udp, specs))
  }

  function PlanFor(ip: nat, rules: seq<Rule>): Plan {
    seq(|rules|, i requires 0 <= i < |rules| => Expand(ip, rules[i]))
  }

  lemma ExpandedAreOfClient(ip: nat, r: Rule, c: ChainRule)
    requires Expand(ip, r).Some? && c in Expand(ip, r).value
    ensures c.src == ip
  {
    if Trim(r.ports) != "" {
      var specs := Ports.ParseSpecs(r.ports).value;
      assert c in ForProto(ip, r.cidr, Tcp, specs) || c in ForProto(ip, r.cidr, Udp, specs);
    }
  }

  /** Every rule of a plan has the client as its source. */
  lemma PlannedAreOfClient(ip: nat, rules: seq<Rule>, c: ChainRule)
    requires InPlan(PlanFor(ip, rules), c)
    ensures c.src == ip
  {
    var m: nat :| m < |rules| && c in Calls(PlanFor(ip, rules), m);
    ExpandedAreOfClient(ip, rules[m], c);
  }

  /** Adding the rest of the plan to chain ends where adding all of it to start does. */
  ghost predicate AddsUpTo(start: seq<ChainRule>, chain: seq<ChainRule>, plan: Plan, i: nat, ok: bool,
      calls: (nat, nat) -> bool)
    requires i <= |plan|
  {
    var (end, rest) := AddFrom(chain, plan, i, calls);
    AddFrom(start, plan, 0, calls) == (end, ok && rest)
  }

  // ---- The loops over the shared chain ------------------------------------------

  class Manager {
    var chain: seq<ChainRule>

    constructor ()
      ensures chain == []
    {
      chain := [];
    }

    /** The appends of resource i. */
    method AppendSpecs(specs: seq<ChainRule>, i: nat, calls: (nat, nat) -> bool) returns (ok: bool)
      modifies this
      ensures (chain, ok) == AppendFrom(old(chain), specs, i, 0, calls)
    {
      var j := 0;
      while j < |specs|
        invariant 0 <= j <= |specs|
        invariant AppendFrom(chain, specs, i, j, calls) == AppendFrom(old(chain), specs, i, 0, calls)
      {
        if !calls(i, j) {
          return false;
        }
        chain := AppendUnique(chain, specs[j]);
        j := j + 1;
      }
      ok := true;
    }

    method AddResource(clientIP: nat, rules: seq<Rule>, i: nat, calls: (nat, nat) -> bool) returns (ok: bool)
      requires i < |rules|
      modifies this
      ensures (chain, ok) == AddOne(old(chain), PlanFor(clientIP, rules), i, calls)
    {
      var expanded := Expand(clientIP, rules[i]);
      if expanded.None? {
        return false;
      }
      ok := AppendSpecs(expanded.value, i, calls);
    }

    method AddRules(clientIP: nat, rules: seq<Rule>, calls: (nat, nat) -> bool) returns (ok: bool)
      modifies this
      ensures (chain, ok) == AddFrom(old(chain), PlanFor(clientIP, rules), 0, calls)
    {
      ghost var plan := PlanFor(clientIP, rules);
      ok := true;
      var i := 0;
      while i < |rules|
        invariant 0 <= i <= |rules|
        invariant AddsUpTo(old(chain), chain, plan, i, ok, calls)
      {
        var added := AddResource(clientIP, rules, i, calls);
        ok := ok && added;
        i := i + 1;
      }
    }

    /** The deletions of resource i. */
    method DeleteSpecs(specs: seq<ChainRule>, i: nat, calls: (nat, nat) -> bool)
      modifies this
      ensures chain == DeleteFrom(old(chain), specs, i, 0, calls)
    {
      var j := 0;
      while j < |specs|
        invariant 0 <= j <= |specs|
        invariant DeleteFrom(chain, specs, i, j, calls) == DeleteFrom(old(chain), specs, i, 0, calls)
      {
        if calls(i, j) {
          chain := DeleteIfExists(chain, specs[j]);
        }
        j := j + 1;
      }
    }

    method DeleteResource(clientIP: nat, rules: seq<Rule>, i: nat, calls: (nat, nat) -> bool)
      requires i < |rules|
      modifies this
      ensures chain == DeleteFrom(old(chain), Calls(PlanFor(clientIP, rules), i), i, 0, calls)
    {
      var expanded := Expand(clientIP, rules[i]);
      if expanded.Some? {
        DeleteSpecs(expanded.value, i, calls);
      }
    }

    method RemoveRules(clientIP: nat, rules: seq<Rule>, calls: (nat, nat) -> bool)
      modifies this
      ensures chain == RemoveFrom(old(chain), PlanFor(clientIP, rules), 0, calls)
    {
      ghost var plan := PlanFor(clientIP, rules);
      var i := 0;
      while i < |rules|
        invariant 0 <= i <= |rules|
        invariant RemoveFrom(chain, plan, i, calls) == RemoveFrom(old(chain), plan, 0, calls)
      {
        ghost var before := chain;
        DeleteResource(clientIP, rules, i, calls);
        i := i + 1;
      }
    }
  }
}
