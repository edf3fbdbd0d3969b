/** What one VPN connection claims of the address space (client/internal/daemon/netconflict.go). */
module NetSets {
  import opened Options
  import opened Prefixes

  /** all: takes the default route. */
  datatype NetSet = NetSet(prefixes: seq<Prefix>, all: bool) {
    predicate Empty() {
      prefixes == [] && !all
    }
  }

  const NOTHING := NetSet([], false)

  /** What adding keeps: masked, distinct prefixes longer than the halves of a default route. */
  predicate Canonical(n: NetSet) {
    && (forall i :: 0 <= i < |n.prefixes| ==>
          n.prefixes[i].Valid() && n.prefixes[i].Masked() == n.prefixes[i] && n.prefixes[i].bits > 1)
    && (forall i, j :: 0 <= i < j < |n.prefixes| ==> n.prefixes[i] != n.prefixes[j])
  }

  /** Address x of width w lies in one of the networks. */
  ghost predicate Covers(n: NetSet, w: nat, x: nat) {
    exists p :: p in n.prefixes && p.Contains(w, x)
  }

  function Add(n: NetSet, p: Prefix): NetSet
    requires p.Valid()
  {
    var q := p.Masked();
    if q.bits <= 1 then n.(all := true)
    else if q in n.prefixes then n
    else n.(prefixes := n.prefixes + [q])
  }

  function AddAll(n: NetSet, ps: seq<Prefix>): NetSet
    requires forall i :: 0 <= i < |ps| ==> ps[i].Valid()
    decreases |ps|
  {
    if ps == [] then n else AddAll(Add(n, ps[0]), ps[1..])
  }

  function Merge(n: NetSet, o: NetSet): NetSet
    requires Canonical(n) && Canonical(o)
  {
    AddAll(AddAll(NetSet([], n.all || o.all), n.prefixes), o.prefixes)
  }

  /** Two sets cannot be up at once. */
  predicate Overlap(a: NetSet, b: NetSet)
    requires Canonical(a) && Canonical(b)
  {
    (a.all && b.all) ||
    exists i, j :: 0 <= i < |a.prefixes| && 0 <= j < |b.prefixes| && a.prefixes[i].Overlaps(b.prefixes[j])
  }

  // ---- Netmasks ------------------------------------------------------------------

  const V4 := 32

  /** Bitwise and of two w-bit numbers. */
  function BitAnd(x: nat, y: nat, w: nat): nat {
    if w == 0 then 0 else 2 * BitAnd(x / 2, y / 2, w - 1) + (x % 2) * (y % 2)
  }

  /** Length of a contiguous netmask; the source gets it from net.IPMask.Size. */
  function MaskLength(m: nat, n: nat): (r: Option<nat>)
    requires n <= V4
    ensures r.Some? ==> n <= r.value <= V4 && m == Pow2(V4) - Pow2(V4 - r.value)
    decreases V4 - n
  {
    if m == Pow2(V4) - Pow2(V4 - n) then Some(n) else if n == V4 then None else MaskLength(m, n + 1)
  }

  /**
   * OpenVPN's "network netmask" pair. ip: the parsed address with its width; mask: the parsed IPv4 mask, if it is one.
   */
  function AddMasked(n: NetSet, ip: Option<(nat, nat)>, mask: Option<nat>): NetSet
    requires ip.Some? ==> Prefix(ip.value.0, ip.value.1, 0).Valid()
  {
    match ip
    case None => n
    case Some((w, a)) =>
      var bits := if w == V4 && mask.Some? then MaskLength(mask.value, 0).GetOr(V4) else w;
      Add(n, Prefix(w, a, bits))
  }

  lemma {:induction false} MaskAnd(x: nat, k: nat, w: nat)
    requires k <= w && x < Pow2(w)
    ensures Pow2(k) <= Pow2(w)
    ensures BitAnd(x, Pow2(w) - Pow2(k), w) == x / Pow2(k) * Pow2(k)
  {
    if w == 0 {
    } else if k == 0 {
      AllOnes(x, w);
    } else {
      MaskAnd(x / 2, k - 1, w - 1);
      HalfMask(k, w);
      HalfMultiple(x, Pow2(k - 1), Pow2(k));
    }
  }

  lemma HalfMask(k: nat, w: nat)
    requires 0 < k <= w && Pow2(k - 1) <= Pow2(w - 1)
    ensures (Pow2(w) - Pow2(k)) / 2 == Pow2(w - 1) - Pow2(k - 1) && (Pow2(w) - Pow2(k)) % 2 == 0
  {
  }

  lemma HalfMultiple(x: nat, h: nat, p: nat)
    requires h > 0 && p == 2 * h
    ensures 2 * (x / 2 / h * h) == x / p * p
  {
    DivDiv(x, 2, h);
  }

  lemma {:induction false} AllOnes(x: nat, w: nat)
    requires x < Pow2(w)
    ensures BitAnd(x, Pow2(w) - 1, w) == x
  {
    if w > 0 {
      AllOnes(x / 2, w - 1);
      assert (Pow2(w) - 1) / 2 == Pow2(w - 1) - 1 && (Pow2(w) - 1) % 2 == 1;
    }
  }

  lemma SameMultiple(a: nat, b: nat, d: nat)
    requires d > 0
    ensures a * d == b * d <==> a == b
  {
    MulDiv(a, d);
    MulDiv(b, d);
  }

  lemma MaskedBitsAgree(w: nat, k: nat, ip: nat, x: nat)
    requires k <= w && ip < Pow2(w) && x < Pow2(w)
    ensures Pow2(k) <= Pow2(w)
    ensures BitAnd(x, Pow2(w) - Pow2(k), w) == BitAnd(ip, Pow2(w) - Pow2(k), w) <==> x / Pow2(k) == ip / Pow2(k)
  {
    MaskAnd(x, k, w);
    MaskAnd(ip, k, w);
    SameMultiple(x / Pow2(k), ip / Pow2(k), Pow2(k));
  }

  lemma {:induction false} MaskPrefix(w: nat, ip: nat, n: nat, m: nat, x: nat)
    requires n <= w && m == Pow2(w) - Pow2(w - n) && ip < Pow2(w) && x < Pow2(w)
    ensures Prefix(w, ip, n).Masked().Contains(w, x) <==> BitAnd(x, m, w) == BitAnd(ip, m, w)
  {
    MaskedBitsAgree(w, w - n, ip, x);
    MaskedSameBlock(Prefix(w, ip, n));
  }

  lemma {:induction false} PowersGrow(a: nat, b: nat)
    requires a < b
    ensures Pow2(a) < Pow2(b)
    decreases b
  {
    if a < b - 1 {
      PowersGrow(a, b - 1);
    }
  }

  /** The contiguous IPv4 netmask of length k. */
  predicate IsNetmask(m: nat, k: nat) {
    k <= 32 && m == Pow2(32) - Pow2(32 - k)
  }

  lemma {:induction false} NetmaskLength(m: nat, k: nat, n: nat)
    requires IsNetmask(m, k) && n <= k
    ensures MaskLength(m, n) == Some(k)
    decreases k - n
  {
    if n < k {
      PowersGrow(32 - k, 32 - n);
      NetmaskLength(m, k, n + 1);
    }
  }

  /** A contiguous netmask m turns address ip into exactly the prefix {x : x & m = ip & m}. */
  lemma {:induction false} NetmaskIsPrefix(ip: nat, m: nat, k: nat, x: nat)
    requires IsNetmask(m, k) && ip < Pow2(V4) && x < Pow2(V4)
    ensures Prefix(V4, ip, k).Masked().Contains(V4, x) <==> BitAnd(x, m, V4) == BitAnd(ip, m, V4)
  {
    MaskPrefix(V4, ip, k, m, x);
  }

  // ---- The loops ------------------------------------------------------------------

  method AddLoop(n: NetSet, p: Prefix) returns (r: NetSet)
    requires p.Valid()
    ensures r == Add(n, p)
  {
    var q := p.Masked();
    if q.bits <= 1 {
      return n.(all := true);
    }
    var i := 0;
    while i < |n.prefixes|
      invariant 0 <= i <= |n.prefixes|
      invariant q !in n.prefixes[..i]
    {
      if n.prefixes[i] == q {
        return n;
      }
      i := i + 1;
    }
    r := n.(prefixes := n.prefixes + [q]);
  }

  method MergeLoop(n: NetSet, o: NetSet) returns (out: NetSet)
    requires Canonical(n) && Canonical(o)
    ensures out == Merge(n, o)
  {
    out := NetSet([], n.all || o.all);
    out := AddAllLoop(out, n.prefixes);
    out := AddAllLoop(out, o.prefixes);
  }

  method AddAllLoop(n: NetSet, ps: seq<Prefix>) returns (out: NetSet)
    requires forall i :: 0 <= i < |ps| ==> ps[i].Valid()
    ensures out == AddAll(n, ps)
  {
    out := n;
    var i := 0;
    while i < |ps|
      invariant 0 <= i <= |ps|
      invariant AddAll(out, ps[i..]) == AddAll(n, ps)
    {
      assert ps[i..][0] == ps[i] && ps[i..][1..] == ps[i + 1..];
      out := AddLoop(out, ps[i]);
      i := i + 1;
    }
  }

  /** What a refusal names. */
  datatype Shared = AllTraffic | Network(net: Prefix)

  function Wider(x: Prefix, y: Prefix): Prefix {
    if x.bits <= y.bits then x else y
  }

  /** Pair (i, j) overlaps and no earlier pair does. */
  ghost predicate FirstPair(a: NetSet, b: NetSet, i: int, j: int)
    requires Canonical(a) && Canonical(b)
  {
    && 0 <= i < |a.prefixes| && 0 <= j < |b.prefixes| && a.prefixes[i].Overlaps(b.prefixes[j])
    && forall k, l :: 0 <= k <= i && 0 <= l < |b.prefixes| && (k < i || l < j) ==>
         !a.prefixes[k].Overlaps(b.prefixes[l])
  }

  /** what is the reason to name: all traffic if both take it, else the wider of the first pair that overlaps. */
  ghost predicate Explains(a: NetSet, b: NetSet, what: Shared)
    requires Canonical(a) && Canonical(b)
  {
    if a.all && b.all then what == AllTraffic
    else what.Network? && exists i, j :: FirstPair(a, b, i, j) && what.net == Wider(a.prefixes[i], b.prefixes[j])
  }

  /** One of two overlapping networks holds all addresses of both, and that one is named; never two different ones. */
  lemma NamesTheWider(a: NetSet, b: NetSet, what: Shared)
    requires Canonical(a) && Canonical(b) && Explains(a, b, what)
    ensures what.AllTraffic? <==> a.all && b.all
    ensures what.Network? ==>
              exists i, j :: 0 <= i < |a.prefixes| && 0 <= j < |b.prefixes|
                && IsWiderOf(what.net, a.prefixes[i], b.prefixes[j])
    ensures forall other :: Explains(a, b, other) ==> other == what
  {
    if what.Network? {
      var i, j :| FirstPair(a, b, i, j) && what.net == Wider(a.prefixes[i], b.prefixes[j]);
      WiderHoldsBoth(a.prefixes[i], b.prefixes[j]);
    }
    forall other | Explains(a, b, other) ensures other == what {
      if other.Network? {
        var i, j :| FirstPair(a, b, i, j) && what.net == Wider(a.prefixes[i], b.prefixes[j]);
        var k, l :| FirstPair(a, b, k, l) && other.net == Wider(a.prefixes[k], b.prefixes[l]);
        OneFirstPair(a, b, i, j, k, l);
      }
    }
  }

  ghost predicate IsWiderOf(net: Prefix, x: Prefix, y: Prefix)
    requires x.Valid() && y.Valid()
  {
    && x.Overlaps(y) && (net == x || net == y)
    && forall w, z :: x.Contains(w, z) || y.Contains(w, z) ==> net.Contains(w, z)
  }

  lemma WiderHoldsBoth(x: Prefix, y: Prefix)
    requires x.Valid() && y.Valid() && x.Overlaps(y)
    ensures IsWiderOf(Wider(x, y), x, y)
  {
    forall w, z | x.Contains(w, z) || y.Contains(w, z) ensures Wider(x, y).Contains(w, z) {
      if x.bits <= y.bits {
        if y.Contains(w, z) {
          OverlapsNested(x, y, z);
        }
      } else if x.Contains(w, z) {
        OverlapsNested(y, x, z);
      }
    }
  }

  lemma OneFirstPair(a: NetSet, b: NetSet, i: int, j: int, k: int, l: int)
    requires Canonical(a) && Canonical(b) && FirstPair(a, b, i, j) && FirstPair(a, b, k, l)
    ensures i == k && j == l
  {
  }

  method OverlapLoop(a: NetSet, b: NetSet) returns (r: Option<Shared>)
    requires Canonical(a) && Canonical(b)
    ensures r.Some? <==> Overlap(a, b)
    ensures r.Some? ==> Explains(a, b, r.value)
  {
    if a.all && b.all {
      return Some(AllTraffic);
    }
    var i := 0;
    while i < |a.prefixes|
      invariant 0 <= i <= |a.prefixes|
      invariant forall k, l :: 0 <= k < i && 0 <= l < |b.prefixes| ==> !a.prefixes[k].Overlaps(b.prefixes[l])
    {
      var x := a.prefixes[i];
      var j := 0;
      while j < |b.prefixes|
        invariant 0 <= j <= |b.prefixes|
        invariant forall l :: 0 <= l < j ==> !x.Overlaps(b.prefixes[l])
      {
        var y := b.prefixes[j];
        if x.Overlaps(y) {
          assert FirstPair(a, b, i, j);
          return Some(Network(if x.bits <= y.bits then x else y));
        }
        j := j + 1;
      }
      i := i + 1;
    }
    r := None;
  }

  // ---- What the sets mean ---------------------------------------------------------------

  lemma AddMeaning(n: NetSet, p: Prefix)
    requires Canonical(n) && p.Valid()
    ensures Canonical(Add(n, p))
    ensures Add(n, p).all <==> n.all || p.bits <= 1
    ensures forall w, x :: Covers(Add(n, p), w, x) <==> Covers(n, w, x) || (p.bits > 1 && p.Masked().Contains(w, x))
  {
    MaskedSameBlock(p);
    var q := p.Masked();
    var r := Add(n, p);
    if p.bits > 1 {
      assert q in r.prefixes;
      assert forall y :: y in r.prefixes <==> y in n.prefixes || y == q;
    }
  }

  lemma AddAt(n: NetSet, p: Prefix, w: nat, x: nat)
    requires Canonical(n) && p.Valid()
    ensures var r := Add(n, p);
            && Canonical(r) && (r.all <==> n.all || p.bits <= 1)
            && (Covers(r, w, x) <==> Covers(n, w, x) || (p.bits > 1 && p.Masked().Contains(w, x)))
  {
    AddMeaning(n, p);
  }

  lemma {:induction false} AddsMasked(n: NetSet, ip: nat, m: nat, k: nat)
    requires ip < Pow2(V4) && IsNetmask(m, k)
    ensures AddMasked(n, Some((V4, ip)), Some(m)) == Add(n, Prefix(V4, ip, k))
  {
    NetmaskLength(m, k, 0);
  }

  lemma {:induction false} NoNetmaskNoLength(m: nat)
    requires forall k: nat :: !IsNetmask(m, k)
    ensures MaskLength(m, 0).None?
  {
    var r := MaskLength(m, 0);
    assert r.Some? ==> IsNetmask(m, r.value);
  }

  lemma {:induction false} AddsUnmasked(n: NetSet, w: nat, ip: nat, mask: Option<nat>)
    requires (w == 32 || w == 128) && ip < Pow2(w)
    requires w == 32 && mask.Some? ==> forall k: nat :: !IsNetmask(mask.value, k)
    ensures AddMasked(n, Some((w, ip)), mask) == Add(n, Prefix(w, ip, w))
  {
    if w == 32 && mask.Some? {
      NoNetmaskNoLength(mask.value);
    }
  }

  /** A network and a contiguous netmask add exactly the addresses x with x & m = ip & m, or the default route. */
  lemma {:induction false} AddMaskedMeaning(n: NetSet, ip: nat, m: nat, k: nat, x: nat)
    requires Canonical(n) && ip < Pow2(V4) && x < Pow2(V4) && IsNetmask(m, k)
    ensures var r := AddMasked(n, Some((V4, ip)), Some(m));
            && Canonical(r) && (r.all <==> n.all || k <= 1)
            && (Covers(r, V4, x) <==> Covers(n, V4, x) || (k > 1 && BitAnd(x, m, V4) == BitAnd(ip, m, V4)))
  {
    AddsMasked(n, ip, m, k);
    AddAt(n, Prefix(V4, ip, k), V4, x);
    NetmaskIsPrefix(ip, m, k, x);
  }

  /** With any other mask, or none, an address adds itself. */
  lemma {:induction false} AddUnmaskedMeaning(n: NetSet, w: nat, ip: nat, mask: Option<nat>, x: nat)
    requires Canonical(n) && (w == 32 || w == 128) && ip < Pow2(w) && x < Pow2(w)
    requires w == 32 && mask.Some? ==> forall k: nat :: !IsNetmask(mask.value, k)
    ensures var r := AddMasked(n, Some((w, ip)), mask);
            Canonical(r) && r.all == n.all && (Covers(r, w, x) <==> Covers(n, w, x) || x == ip)
  {
    AddsUnmasked(n, w, ip, mask);
    AddAt(n, Prefix(w, ip, w), w, x);
    HostIsItself(w, ip, x);
  }

  lemma {:induction false} HostIsItself(w: nat, ip: nat, x: nat)
    requires w > 0
    ensures Prefix(w, ip, w).Masked().Contains(w, x) <==> x == ip
  {
    var p := Prefix(w, ip, w);
    assert p.Block() == 1;
    MaskedSameBlock(p);
  }

  ghost predicate Among(ps: seq<Prefix>, w: nat, x: nat) {
    exists p :: p in ps && p.Contains(w, x)
  }

  lemma {:induction false} AddAllMeaning(n: NetSet, ps: seq<Prefix>)
    requires Canonical(n) && Canonical(NetSet(ps, false))
    ensures Canonical(AddAll(n, ps)) && AddAll(n, ps).all == n.all
    ensures forall w, x :: Covers(AddAll(n, ps), w, x) <==> Covers(n, w, x) || Among(ps, w, x)
    decreases |ps|
  {
    if ps != [] {
      AddMeaning(n, ps[0]);
      assert Canonical(NetSet(ps[1..], false));
      var m := Add(n, ps[0]);
      AddAllMeaning(m, ps[1..]);
      forall w, x ensures Covers(AddAll(n, ps), w, x) <==> Covers(n, w, x) || Among(ps, w, x) {
        assert Covers(m, w, x) <==> Covers(n, w, x) || ps[0].Contains(w, x);
      }
    }
  }

  /** Merging is union, and keeps the sets canonical. */
  lemma MergeIsUnion(n: NetSet, o: NetSet)
    requires Canonical(n) && Canonical(o)
    ensures var r := Merge(n, o);
            && Canonical(r) && (r.all <==> n.all || o.all)
            && forall w, x :: Covers(r, w, x) <==> Covers(n, w, x) || Covers(o, w, x)
  {
    var start := NetSet([], n.all || o.all);
    assert Canonical(NetSet(n.prefixes, false)) && Canonical(NetSet(o.prefixes, false));
    AddAllMeaning(start, n.prefixes);
    AddAllMeaning(AddAll(start, n.prefixes), o.prefixes);
    forall w, x ensures Among(n.prefixes, w, x) == Covers(n, w, x) && Among(o.prefixes, w, x) == Covers(o, w, x) {
    }
  }

  /** Sound and complete: sets overlap exactly when both take the default route or some address is in both. */
  lemma OverlapMeaning(a: NetSet, b: NetSet)
    requires Canonical(a) && Canonical(b)
    ensures Overlap(a, b) <==> (a.all && b.all) || exists w: nat, x: nat :: Covers(a, w, x) && Covers(b, w, x)
  {
    if i, j :| 0 <= i < |a.prefixes| && 0 <= j < |b.prefixes| && a.prefixes[i].Overlaps(b.prefixes[j]) {
      var p, q := a.prefixes[i], b.prefixes[j];
      OverlapsIffShared(p, q);
      var w: nat, x: nat :| p.Contains(w, x) && q.Contains(w, x);
      assert Covers(a, w, x) && Covers(b, w, x);
    }
    forall w: nat, x: nat | Covers(a, w, x) && Covers(b, w, x) ensures Overlap(a, b) {
      var p :| p in a.prefixes && p.Contains(w, x);
      var q :| q in b.prefixes && q.Contains(w, x);
      SharedAddressOverlaps(p, q, w, x);
    }
  }

  lemma OverlapSymmetric(a: NetSet, b: NetSet)
    requires Canonical(a) && Canonical(b)
    ensures Overlap(a, b) == Overlap(b, a)
  {
    OverlapMeaning(a, b);
    OverlapMeaning(b, a);
  }

  /** A set free of conflicts stays so when it is made smaller. */
  lemma OverlapOfPart(part: NetSet, rest: NetSet, other: NetSet)
    requires Canonical(part) && Canonical(rest) && Canonical(other) && Overlap(part, other)
    ensures Canonical(Merge(part, rest)) && Overlap(Merge(part, rest), other)
  {
    MergeIsUnion(part, rest);
    OverlapMeaning(part, other);
    OverlapMeaning(Merge(part, rest), other);
  }
}
