/** The session manager as it runs: stores changed in place, rollback by hand (server/internal/session/manager.go). */
module SessionManager {
  import opened Options
  import opened IPPool
  import opened Sessions
  import WireGuard
  import Firewall
  import Iptables

  class Manager {
    const fw: Firewall.Manager
    const ippool: Pool
    const registry: WireGuard.Registry
    var sessions: map<SessionID, Session>
    var psks: map<SessionID, string>
    var grants: map<(ServerID, UserID), seq<ResourceRow>>

    ghost function Now(): State
      reads this, fw, ippool, registry
    {
      State(ippool.rows, sessions, psks, registry.peers, fw.chain, grants)
    }

    constructor (fw: Firewall.Manager, ippool: Pool, registry: WireGuard.Registry, sessions: map<SessionID, Session>,
      grants: map<(ServerID, UserID), seq<ResourceRow>>)
      ensures this.fw == fw && this.ippool == ippool && this.registry == registry
      ensures Now() == State(ippool.rows, sessions, map[], registry.peers, fw.chain, grants)
    {
      this.fw := fw;
      this.ippool := ippool;
      this.registry := registry;
      this.sessions := sessions;
      this.psks := map[];
      this.grants := grants;
    }

    method SyncServerPeers(server: ServerID, env: SyncEnv)
      modifies registry
      ensures Now() == Sync(old(Now()), server, env)
    {
      if server !in registry.peers || env.listing.None? || !IsListing(env.listing.value, sessions, server) {
        return;
      }
      var rows := env.listing.value;
      var entries: seq<WireGuard.PeerEntry> := [];
      var i := 0;
      while i < |rows|
        invariant 0 <= i <= |rows|
        invariant entries == Entries(rows[..i], sessions, psks)
      {
        assert rows[..i + 1][..i] == rows[..i];
        if rows[i] in psks {
          entries := entries + [WireGuard.PeerEntry(sessions[rows[i]].key, sessions[rows[i]].ip, psks[rows[i]])];
        }
        i := i + 1;
      }
      assert rows[..i] == rows;
      registry.SyncAllPeers(server, entries, env.applied);
    }

    method DeleteSession(sid: SessionID, s: Session, env: DeleteEnv)
      modifies this, fw, ippool, registry
      ensures Now() == Delete(old(Now()), sid, s, env)
    {
      if s.server in registry.peers {
        registry.RemovePeer(s.server, s.key, env.removePeerOk);
      }
      if env.resourcesOk {
        var resources := RulesOf(Granted(grants, s.server, s.user));
        fw.RemoveRules(s.ip, resources, env.ipt);
      }
      ippool.Release(s.server, s.ip, env.releaseOk);
      psks := psks - {sid};
      assert Now() == Unhook(old(Now()), sid, s, env);
      if !env.deleteOk {
        return;
      }
      sessions := sessions - {sid};
      SyncServerPeers(s.server, env.sync);
    }

    method CreateSession(sid: SessionID, user: UserID, server: ServerID, key: Option<WireGuard.Key>, now: int,
        env: CreateEnv)
      returns (outcome: Outcome)
      modifies this, fw, ippool, registry
      ensures (Now(), outcome) == Create(old(Now()), sid, user, server, key, now, env)
    {
      if server !in registry.peers {
        return NoServer;
      }
      if env.psk.None? {
        return NoPsk;
      }
      psks := psks[sid := env.psk.value];
      var ip := ippool.Allocate(server, sid, env.pick);
      if ip.None? {
        psks := psks - {sid};
        return NoAddress;
      }
      if !env.insertOk {
        psks := psks - {sid};
        ippool.Release(server, ip.value, env.releaseOk);
        return InsertFailed;
      }
      var s := Session(user, server, key, ip.value, now, now);
      sessions := sessions[sid := s];
      outcome := HookSession(s, env.psk.value, env);
      if outcome != Created {
        DeleteSession(sid, s, env.undo);
      }
    }

    /** The part of CreateSession after the row is inserted. */
    method HookSession(s: Session, psk: string, env: CreateEnv) returns (outcome: Outcome)
      requires s.server in registry.peers
      modifies fw, registry
      ensures (Now(), outcome) == Hook(old(Now()), s, psk, env)
    {
      var peerOk := registry.AddPeer(s.server, s.key, s.ip, psk, env.addPeerOk);
      if !peerOk {
        return PeerFailed;
      }
      assert Now() == AddPeer(old(Now()), s, psk);
      SyncServerPeers(s.server, env.sync);
      if !env.resourcesOk {
        return ResourcesFailed;
      }
      var added := AllowResources(s, env.ipt);
      if !added {
        return RulesFailed;
      }
      outcome := if env.endpointsOk then Created else EndpointsFailed;
    }

    method AllowResources(s: Session, calls: (nat, nat) -> bool) returns (added: bool)
      modifies fw
      ensures (fw.chain, added) == Iptables.AddFrom(old(fw.chain), PlanOf(old(Now()), s), 0, calls)
    {
      var resources := RulesOf(Granted(grants, s.server, s.user));
      added := true;
      if |resources| > 0 {
        added := fw.AddRules(s.ip, resources, calls);
      }
    }

    /**
     * The loop shared by Terminate, TerminateUserSessions, TerminateUserServerSessions, TerminateAll, expireStale and
     * cleanDeadPeers.
     */
    method EndSessions(rows: seq<SessionID>, sel: Selection, envs: nat -> DeleteEnv)
      modifies this, fw, ippool, registry
      ensures Now() == EndFrom(old(Now()), rows, sel, 0, envs)
    {
      var i := 0;
      while i < |rows|
        invariant 0 <= i <= |rows|
        invariant EndFrom(Now(), rows, sel, i, envs) == EndFrom(old(Now()), rows, sel, 0, envs)
      {
        ghost var before := Now();
        var sid := rows[i];
        if sid in sessions && Picks(sel, registry.peers.Keys, sid, sessions[sid]) {
          DeleteSession(sid, sessions[sid], envs(i));
        }
        EndFromNext(before, rows, sel, i, envs, Now());
        i := i + 1;
      }
    }
  }
}
