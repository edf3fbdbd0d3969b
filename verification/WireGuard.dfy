/** Peers on the WireGuard interface of each running server (server/internal/wireguard/manager.go). */
module WireGuard {
  import opened Options
  import opened IPPool

  /** A decoded public key. A session's key text is None when it does not decode. */
  type Key = string

  datatype Peer = Peer(ip: nat, psk: string)

  datatype PeerEntry = PeerEntry(key: Option<Key>, ip: nat, psk: string)

  type PeerTable = map<Key, Peer>

  /**
   * The interface after replacing all peers: entries whose key does not decode are skipped, a repeated key keeps the
   * last.
   */
  function Table(entries: seq<PeerEntry>): PeerTable {
    if entries == [] then map[]
    else
      var e := entries[|entries| - 1];
      var t := Table(entries[..|entries| - 1]);
      if e.key.Some? then t[e.key.value := Peer(e.ip, e.psk)] else t
  }

  class Registry {
    var peers: map<ServerID, PeerTable>

    constructor (running: set<ServerID>)
      ensures peers == map s | s in running :: map[]
    {
      peers := map s | s in running :: map[];
    }

    method AddPeer(server: ServerID, key: Option<Key>, ip: nat, psk: string, call: bool) returns (ok: bool)
      requires server in peers
      modifies this
      ensures ok == (key.Some? && call)
      ensures peers == if ok then old(peers)[server := old(peers)[server][key.value := Peer(ip, psk)]] else old(peers)
    {
      ok := key.Some? && call;
      if ok {
        peers := peers[server := peers[server][key.value := Peer(ip, psk)]];
      }
    }

    method RemovePeer(server: ServerID, key: Option<Key>, call: bool)
      requires server in peers
      modifies this
      ensures peers == if key.Some? && call then old(peers)[server := old(peers)[server] - {key.value}] else old(peers)
    {
      if key.Some? && call {
        peers := peers[server := peers[server] - {key.value}];
      }
    }

    method SyncAllPeers(server: ServerID, entries: seq<PeerEntry>, call: bool)
      requires server in peers
      modifies this
      ensures peers == if call then old(peers)[server := Table(entries)] else old(peers)
    {
      var table: PeerTable := map[];
      var i := 0;
      while i < |entries|
        invariant 0 <= i <= |entries|
        invariant table == Table(entries[..i]) && peers == old(peers)
      {
        assert entries[..i + 1][..i] == entries[..i];
        if entries[i].key.Some? {
          table := table[entries[i].key.value := Peer(entries[i].ip, entries[i].psk)];
        }
        i := i + 1;
      }
      assert entries[..i] == entries;
      if call {
        peers := peers[server := table];
      }
    }
  }
}
