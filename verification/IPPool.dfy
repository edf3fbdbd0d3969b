/**
 * Client addresses of each server (server/internal/ippool/pool.go) and the gateway
 * (server/internal/wireguard/setup.go).
 */
module IPPool {
  import opened Options
  import opened Prefixes

  type ServerID = string
  type SessionID = string
  type Row = (ServerID, nat)

  /** What ip_pool holds: a row per address, with the session using it. */
  type Rows = map<Row, Option<SessionID>>

  predicate Subnet(p: Prefix) {
    p.Valid() && p.width == 32 && p.Masked() == p
  }

  /** i from 2 to total - 2: not the network, the gateway or the broadcast address. */
  predicate InPool(p: Prefix, a: nat) {
    p.addr + 2 <= a < p.addr + p.Block() - 1
  }

  /** Free rows for the addresses from lo up to, not including, hi. */
  function FreeRows(server: ServerID, lo: nat, hi: int): Rows {
    if hi <= lo then map[] else FreeRows(server, lo, hi - 1)[(server, hi - 1) := None]
  }

  lemma {:induction false} FreeRowsAre(server: ServerID, lo: nat, hi: int, row: Row)
    ensures row in FreeRows(server, lo, hi) <==> row.0 == server && lo <= row.1 < hi
    ensures row in FreeRows(server, lo, hi) ==> FreeRows(server, lo, hi)[row].None?
    decreases hi - lo
  {
    if lo < hi {
      FreeRowsAre(server, lo, hi - 1, row);
    }
  }

  function PoolRows(server: ServerID, p: Prefix): Rows {
    FreeRows(server, p.addr + 2, p.addr + p.Block() - 1)
  }

  predicate HasRows(rows: Rows, server: ServerID) {
    exists row :: row in rows && row.0 == server
  }

  /** How filling a pool goes; inserts(i) is the outcome for the i-th address of the subnet. */
  datatype Filling = Filling(counted: bool, began: bool, inserts: nat -> bool, committed: bool)

  ghost predicate Fills(calls: Filling, p: Prefix) {
    calls.counted && calls.began && AllInserted(calls.inserts, p) && calls.committed
  }

  ghost predicate AllInserted(inserts: nat -> bool, p: Prefix) {
    forall i: nat :: 2 <= i < p.Block() - 1 ==> inserts(i)
  }

  /** A server's rows are made once. */
  function InitRows(rows: Rows, server: ServerID, p: Prefix): Rows {
    if HasRows(rows, server) then rows else rows + PoolRows(server, p)
  }

  /** The pools of the servers brought up in this order. */
  function PoolsOf(servers: seq<(ServerID, Prefix)>): Rows {
    if servers == [] then map[]
    else
      var n := |servers| - 1;
      InitRows(PoolsOf(servers[..n]), servers[n].0, servers[n].1)
  }

  /** No address belongs to two servers. */
  ghost predicate OneServerPerAddress(rows: Rows) {
    forall r1, r2 :: r1 in rows && r2 in rows && r1.1 == r2.1 ==> r1 == r2
  }

  function AllocateRow(rows: Rows, server: ServerID, ip: nat, sid: SessionID): Rows {
    rows[(server, ip) := Some(sid)]
  }

  /** UPDATE of one row: keyed by the address alone, whichever session it belongs to. */
  function ReleaseRow(rows: Rows, server: ServerID, ip: nat): Rows {
    if (server, ip) in rows then rows[(server, ip) := None] else rows
  }

  predicate IsFree(rows: Rows, server: ServerID, ip: nat) {
    (server, ip) in rows && rows[(server, ip)].None?
  }

  /** The fourth byte of the network address plus one, wrapping in the byte. */
  function Gateway(p: Prefix): nat {
    if p.addr % 256 == 255 then p.addr - 255 else p.addr + 1
  }

  class Pool {
    var rows: Rows

    constructor ()
      ensures rows == map[]
    {
      rows := map[];
    }

    /** The inserts of a transaction; None if one of them fails. */
    method InsertRows(server: ServerID, p: Prefix, inserts: nat -> bool) returns (filled: Option<Rows>)
      ensures filled.Some? <==> AllInserted(inserts, p)
      ensures filled.Some? ==> filled.value == rows + PoolRows(server, p)
    {
      var total := p.Block();
      var pending := rows;
      var i := 2;
      while i < total - 1
        invariant 2 <= i
        invariant if total <= 2 then i == 2 else i <= total - 1
        invariant pending == rows + FreeRows(server, p.addr + 2, p.addr + i)
        invariant forall k: nat :: 2 <= k < i ==> inserts(k)
      {
        if !inserts(i) {
          return None;
        }
        pending := pending[(server, p.addr + i) := None];
        i := i + 1;
      }
      filled := Some(pending);
    }

    /** Fills the rows of a server once. p: the parsed subnet. */
    method InitServer(server: ServerID, p: Prefix, calls: Filling) returns (ok: bool)
      requires p.Valid() && p.Masked() == p
      modifies this
      ensures rows == if p.width == 32 && Fills(calls, p) then InitRows(old(rows), server, p) else old(rows)
      ensures ok <==> calls.counted && (HasRows(old(rows), server) || (p.width == 32 && Fills(calls, p)))
    {
      if !calls.counted {
        return false;
      }
      if row :| row in rows && row.0 == server {
        return true;
      }
      if p.width != 32 || !calls.began {
        return false;
      }
      var filled := InsertRows(server, p, calls.inserts);
      if filled.None? || !calls.committed {
        return false;
      }
      rows := filled.value;
      ok := true;
    }

    /** pick is the row the database answers; None stands for a failed query or no free row. */
    method Allocate(server: ServerID, sid: SessionID, pick: Option<nat>) returns (r: Option<nat>)
      modifies this
      ensures r == if pick.Some? && IsFree(old(rows), server, pick.value) then pick else None
      ensures rows == if r.Some? then AllocateRow(old(rows), server, r.value, sid) else old(rows)
    {
      if pick.None? || !IsFree(rows, server, pick.value) {
        return None;
      }
      rows := rows[(server, pick.value) := Some(sid)];
      r := pick;
    }

    method Release(server: ServerID, ip: nat, ok: bool)
      modifies this
      ensures rows == if ok then ReleaseRow(old(rows), server, ip) else old(rows)
    {
      if ok && (server, ip) in rows {
        rows := rows[(server, ip) := None];
      }
    }
  }

  // ---- Address arithmetic ---------------------------------------------------

  lemma SubnetAddress(p: Prefix)
    requires Subnet(p)
    ensures p.addr == p.addr / p.Block() * p.Block()
  {
    RoundDownIs(p.addr, p.Block());
  }

  /** A number lies in a subnet exactly when it is at most one block past its address. */
  lemma ContainsRange(p: Prefix, a: nat)
    requires Subnet(p)
    ensures p.Contains(32, a) <==> p.addr <= a < p.addr + p.Block()
  {
    SubnetAddress(p);
    QuotientRange(a, p.Block(), p.addr / p.Block());
  }

  /** The pool is the subnet without its network, gateway and broadcast addresses. */
  lemma PoolIsSubnetInterior(p: Prefix, a: nat)
    requires Subnet(p)
    ensures InPool(p, a) <==> p.Contains(32, a) && a != p.addr && a != p.addr + 1 && a != p.addr + p.Block() - 1
  {
    ContainsRange(p, a);
  }

  lemma EvenBlock(p: Prefix)
    requires Subnet(p) && p.bits <= 31
    ensures p.Block() >= 2 && p.addr % 2 == 0
  {
    SubnetAddress(p);
    EvenMultiple(p.addr, p.Block(), Pow2(31 - p.bits), p.addr / p.Block());
  }

  lemma EvenMultiple(a: nat, b: nat, h: nat, q: nat)
    requires b == 2 * h && h > 0 && a == q * b
    ensures b >= 2 && a % 2 == 0
  {
    TwiceIsEven(q, h);
  }

  lemma TwiceIsEven(q: nat, h: nat)
    ensures q * (2 * h) % 2 == 0
  {
    assert q * (2 * h) == 2 * (q * h);
  }

  /** The gateway lies in its subnet, and outside the pool, exactly for prefixes shorter than /32. */
  lemma GatewayInSubnet(p: Prefix)
    requires Subnet(p)
    ensures p.Contains(32, Gateway(p)) <==> p.bits <= 31
    ensures p.bits <= 31 ==> Gateway(p) == p.addr + 1
    ensures !InPool(p, Gateway(p))
  {
    ContainsRange(p, Gateway(p));
    if p.bits <= 31 {
      EvenBlock(p);
    } else {
      assert p.Block() == 1;
    }
  }

  /** It has the network's first three bytes, and one more than its last, modulo 256. */
  lemma GatewayBytes(p: Prefix)
    ensures Gateway(p) / 256 == p.addr / 256 && Gateway(p) % 256 == (p.addr % 256 + 1) % 256
  {
  }

  /** The rows made for a server are exactly its pool, all free. */
  lemma PoolRowsArePool(server: ServerID, p: Prefix, row: Row)
    ensures row in PoolRows(server, p) <==> row.0 == server && InPool(p, row.1)
    ensures row in PoolRows(server, p) ==> PoolRows(server, p)[row].None?
  {
    FreeRowsAre(server, p.addr + 2, p.addr + p.Block() - 1, row);
  }

  /**
   * Filling adds the free addresses of the pool, if the server has no rows yet, and leaves every row there is alone.
   */
  lemma {:induction false} FillingIff(rows: Rows, server: ServerID, p: Prefix, row: Row)
    ensures var after := InitRows(rows, server, p);
            && (row in after <==>
                  row in rows || (InPool(p, row.1) && row.0 == server && forall a: nat :: (server, a) !in rows))
            && (row in rows ==> after[row] == rows[row])
            && (row in after && row !in rows ==> after[row].None?)
  {
    PoolRowsArePool(server, p, row);
    assert forall other :: other in rows && other.0 == server ==> (server, other.1) in rows;
  }

  /** Every address of the pool takes one insert, and all of them have to succeed. */
  lemma FillsIff(calls: Filling, p: Prefix)
    ensures Fills(calls, p) <==>
            && calls.counted && calls.began && calls.committed
            && forall a: nat :: InPool(p, a) ==> calls.inserts(a - p.addr)
  {
    if forall a: nat :: InPool(p, a) ==> calls.inserts(a - p.addr) {
      forall i: nat | 2 <= i < p.Block() - 1 ensures calls.inserts(i) {
        assert InPool(p, p.addr + i);
      }
    }
  }

  /** Servers with disjoint subnets never hand out the same address. */
  lemma DisjointSubnetsDisjointPools(p: Prefix, q: Prefix, a: nat)
    requires Subnet(p) && Subnet(q) && !p.Overlaps(q)
    ensures !(InPool(p, a) && InPool(q, a))
  {
    if InPool(p, a) && InPool(q, a) {
      ContainsRange(p, a);
      ContainsRange(q, a);
      SharedAddressOverlaps(p, q, 32, a);
    }
  }

  predicate Separate(p: Prefix, q: Prefix) {
    Subnet(p) && Subnet(q) && !p.Overlaps(q)
  }

  ghost predicate SubnetsApart(servers: seq<(ServerID, Prefix)>) {
    forall i, j :: 0 <= i < |servers| && 0 <= j < |servers| && servers[i].0 != servers[j].0
      ==> Separate(servers[i].1, servers[j].1)
  }

  ghost predicate InSomePool(servers: seq<(ServerID, Prefix)>, row: Row) {
    exists i :: 0 <= i < |servers| && servers[i].0 == row.0 && InPool(servers[i].1, row.1)
  }

  lemma {:induction false} PoolsAreOfSubnets(servers: seq<(ServerID, Prefix)>, row: Row)
    requires row in PoolsOf(servers)
    ensures InSomePool(servers, row) && PoolsOf(servers)[row].None?
  {
    var n := |servers| - 1;
    var front := servers[..n];
    PoolRowsArePool(servers[n].0, servers[n].1, row);
    if row in PoolsOf(front) {
      PoolsAreOfSubnets(front, row);
      var i :| 0 <= i < |front| && front[i].0 == row.0 && InPool(front[i].1, row.1);
      assert servers[i] == front[i];
    }
  }

  ghost predicate DistinctServers(servers: seq<(ServerID, Prefix)>) {
    forall i, j :: 0 <= i < j < |servers| ==> servers[i].0 != servers[j].0
  }

  /** The pools of different servers are all their addresses. */
  lemma {:induction false} PoolsAreComplete(servers: seq<(ServerID, Prefix)>, row: Row)
    requires DistinctServers(servers)
    ensures row in PoolsOf(servers) <==> InSomePool(servers, row)
  {
    if row in PoolsOf(servers) {
      PoolsAreOfSubnets(servers, row);
    }
    if i :| 0 <= i < |servers| && servers[i].0 == row.0 && InPool(servers[i].1, row.1) {
      var n := |servers| - 1;
      var front := servers[..n];
      FillingIff(PoolsOf(front), servers[n].0, servers[n].1, row);
      if i < n {
        assert front[i] == servers[i];
        PoolsAreComplete(front, row);
      } else {
        forall a: nat ensures (row.0, a) !in PoolsOf(front) {
          OthersRows(servers, front, (row.0, a));
        }
      }
    }
  }

  lemma {:induction false} OthersRows(servers: seq<(ServerID, Prefix)>, front: seq<(ServerID, Prefix)>, row: Row)
    requires DistinctServers(servers) && servers != [] && front == servers[..|servers| - 1]
    ensures row in PoolsOf(front) ==> row.0 != servers[|servers| - 1].0
  {
    if row in PoolsOf(front) {
      PoolsAreOfSubnets(front, row);
      var i :| 0 <= i < |front| && front[i].0 == row.0 && InPool(front[i].1, row.1);
      assert servers[i] == front[i];
    }
  }

  /** Servers whose subnets do not overlap get pools in which every address is one server's. */
  lemma {:induction false} PoolsAreApart(servers: seq<(ServerID, Prefix)>)
    requires SubnetsApart(servers)
    ensures OneServerPerAddress(PoolsOf(servers))
  {
    forall r1, r2 | r1 in PoolsOf(servers) && r2 in PoolsOf(servers) && r1.1 == r2.1 ensures r1 == r2 {
      PoolsAreOfSubnets(servers, r1);
      PoolsAreOfSubnets(servers, r2);
      var i :| 0 <= i < |servers| && servers[i].0 == r1.0 && InPool(servers[i].1, r1.1);
      var j :| 0 <= j < |servers| && servers[j].0 == r2.0 && InPool(servers[j].1, r2.1);
      if r1.0 != r2.0 {
        DisjointSubnetsDisjointPools(servers[i].1, servers[j].1, r1.1);
      }
    }
  }
}
