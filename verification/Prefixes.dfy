/** Address prefixes (netip.Prefix, net.IPNet; CIDR notation of section 3.1 of RFC 4632) as numbers. */
module Prefixes {

  function Pow2(n: nat): (r: nat)
    ensures r > 0
  {
    if n == 0 then 1 else 2 * Pow2(n - 1)
  }

  lemma {:induction false} Pow2Add(a: nat, b: nat)
    ensures Pow2(a + b) == Pow2(a) * Pow2(b)
  {
    if a != 0 {
      Pow2Add(a - 1, b);
    }
  }

  lemma DivUnique(x: nat, d: nat, q: nat, r: nat)
    requires d > 0 && r < d && x == q * d + r
    ensures x / d == q
  {
    var q', r' := x / d, x % d;
    assert q' * d + r' == q * d + r;
    if q' < q {
      assert (q - q') * d >= d by { MulAtLeast(q - q', d); }
    } else if q' > q {
      assert (q' - q) * d >= d by { MulAtLeast(q' - q, d); }
    }
  }

  lemma MulAtLeast(k: nat, d: nat)
    requires k > 0
    ensures k * d >= d
  {
  }

  lemma MulBelow(u: nat, k: nat, b: nat, s: nat)
    requires u < k && s < b
    ensures u * b + s < b * k
  {
    var v := k - 1 - u;
    assert k * b == (u + 1 + v) * b == u * b + b + v * b;
  }

  lemma Regroup(t: nat, k: nat, u: nat, b: nat)
    ensures (t * k + u) * b == t * (b * k) + u * b
  {
    assert (t * k + u) * b == t * k * b + u * b;
    assert t * k * b == t * (k * b);
  }

  /** Dropping low bits in two goes is dropping them at once. */
  lemma DivDiv(x: nat, b: nat, k: nat)
    requires b > 0 && k > 0
    ensures b * k > 0 && x / (b * k) == x / b / k
  {
    DivDivParts(x, b, k, x / b, x % b, x / b / k, x / b % k);
  }

  lemma DivDivParts(x: nat, b: nat, k: nat, q: nat, s: nat, t: nat, u: nat)
    requires x == q * b + s && s < b
    requires q == t * k + u && u < k
    ensures b * k > 0 && x / (b * k) == t
  {
    MulAtLeast(k, b);
    Regroup(t, k, u, b);
    MulBelow(u, k, b, s);
    DivUnique(x, b * k, t, u * b + s);
  }

  lemma QuotientRange(a: nat, b: nat, q: nat)
    requires b > 0
    ensures a / b == q <==> q * b <= a < q * b + b
  {
    if q * b <= a < q * b + b {
      DivUnique(a, b, q, a - q * b);
    }
    if a / b == q {
      assert a == a / b * b + a % b;
    }
  }

  lemma MulDiv(q: nat, b: nat)
    requires b > 0
    ensures q * b / b == q
  {
    DivUnique(q * b, b, q, 0);
  }

  /** The multiple of b at or below a. */
  function RoundDown(a: nat, b: nat): (r: nat)
    requires b > 0
    ensures r <= a
  {
    a - a % b
  }

  lemma RoundDownIs(a: nat, b: nat)
    requires b > 0
    ensures RoundDown(a, b) == a / b * b
  {
  }

  lemma RoundDownSame(a: nat, b: nat)
    requires b > 0
    ensures RoundDown(a, b) / b == a / b && RoundDown(RoundDown(a, b), b) == RoundDown(a, b)
  {
    RoundDownIs(a, b);
    MulDiv(a / b, b);
    RoundDownIs(RoundDown(a, b), b);
  }

  /** width is 32 (IPv4) or 128 (IPv6): addresses of different width never meet. */
  datatype Prefix = Prefix(width: nat, addr: nat, bits: nat) {

    predicate Valid() {
      (width == 32 || width == 128) && bits <= width && addr < Pow2(width)
    }

    /** Number of addresses in the prefix. */
    function Block(): nat {
      if bits <= width then Pow2(width - bits) else 1
    }

    function Masked(): Prefix {
      Prefix(width, RoundDown(addr, Block()), bits)
    }

    predicate Contains(w: nat, x: nat) {
      w == width && x / Block() == addr / Block()
    }

    /** netip.Prefix.Overlaps: compare both addresses at the shorter length. */
    predicate Overlaps(q: Prefix)
      requires Valid() && q.Valid()
    {
      width == q.width &&
      var b := if bits <= q.bits then Block() else q.Block();
      addr / b == q.addr / b
    }
  }

  lemma MaskedSameBlock(p: Prefix)
    ensures p.Masked().addr <= p.addr
    ensures p.Masked().addr / p.Block() == p.addr / p.Block()
    ensures p.Masked().Masked() == p.Masked()
    ensures p.Valid() ==> p.Masked().Valid()
  {
    RoundDownSame(p.addr, p.Block());
  }

  lemma BlockSplit(p: Prefix, q: Prefix)
    requires p.Valid() && q.Valid() && p.width == q.width && p.bits <= q.bits
    ensures p.Block() == q.Block() * Pow2(q.bits - p.bits)
    ensures forall x: nat :: x / p.Block() == x / q.Block() / Pow2(q.bits - p.bits)
  {
    var k := Pow2(q.bits - p.bits);
    Pow2Add(p.width - q.bits, q.bits - p.bits);
    assert p.width - q.bits + (q.bits - p.bits) == p.width - p.bits;
    forall x: nat ensures x / p.Block() == x / q.Block() / k {
      DivDiv(x, q.Block(), k);
    }
  }

  /** Overlapping prefixes are nested: the shorter one contains every address of the other. */
  lemma OverlapsNested(p: Prefix, q: Prefix, x: nat)
    requires p.Valid() && q.Valid() && p.bits <= q.bits && p.Overlaps(q)
    requires q.Contains(q.width, x)
    ensures p.Contains(q.width, x)
  {
    BlockSplit(p, q);
    assert x / p.Block() == q.addr / p.Block();
  }

  lemma OverlapsHasWitness(p: Prefix, q: Prefix)
    requires p.Valid() && q.Valid() && p.Overlaps(q)
    ensures var x := if p.bits <= q.bits then q.addr else p.addr;
            x < Pow2(p.width) && p.Contains(p.width, x) && q.Contains(q.width, x)
  {
  }

  lemma SharedAddressOverlaps(p: Prefix, q: Prefix, w: nat, x: nat)
    requires p.Valid() && q.Valid() && p.Contains(w, x) && q.Contains(w, x)
    ensures p.Overlaps(q)
  {
    if p.bits <= q.bits {
      BlockSplit(p, q);
      assert q.addr / p.Block() == x / p.Block();
    } else {
      BlockSplit(q, p);
      assert p.addr / q.Block() == x / q.Block();
    }
  }

  /** The comparison at the shorter length decides whether some address lies in both prefixes. */
  lemma OverlapsIffShared(p: Prefix, q: Prefix)
    requires p.Valid() && q.Valid()
    ensures p.Overlaps(q) <==> exists w: nat, x: nat :: p.Contains(w, x) && q.Contains(w, x)
  {
    if p.Overlaps(q) {
      OverlapsHasWitness(p, q);
    }
    forall w: nat, x: nat | p.Contains(w, x) && q.Contains(w, x) ensures p.Overlaps(q) {
      SharedAddressOverlaps(p, q, w, x);
    }
  }
}
