/** The interface's peers against the sessions of its server. */
module SessionPeers {
  import opened Options
  import opened Iptables
  import opened IPPool
  import opened Sessions
  import opened SessionFacts
  import WireGuard

  /** Session sid stands behind peer key k of a server. */
  ghost predicate IsPeerOf(st: State, server: ServerID, k: WireGuard.Key, sid: SessionID) {
    sid in st.sessions && sid in st.psks && st.sessions[sid].server == server && st.sessions[sid].key == Some(k)
  }

  /** The peers of a server are exactly the (key, address, preshared key) triples of its sessions. */
  ghost predicate PeersExact(st: State, server: ServerID) {
    && server in st.peers
    && (forall k :: k in st.peers[server] ==> exists sid :: IsPeerOf(st, server, k, sid))
    && (forall k, sid :: IsPeerOf(st, server, k, sid) ==>
          k in st.peers[server] && st.peers[server][k] == WireGuard.Peer(st.sessions[sid].ip, st.psks[sid]))
  }

  ghost predicate KeysDistinct(sessions: map<SessionID, Session>, server: ServerID) {
    forall a, b :: (a in sessions && b in sessions && sessions[a].server == server == sessions[b].server) ==>
      (sessions[a].key == sessions[b].key ==> a == b)
  }

  /** Entry i of a listing puts key k on the interface. */
  ghost predicate Lists(listing: seq<SessionID>, st: State, k: WireGuard.Key, i: int) {
    0 <= i < |listing| && listing[i] in st.sessions && listing[i] in st.psks && st.sessions[listing[i]].key == Some(k)
  }

  lemma {:induction false} ListedTable(listing: seq<SessionID>, st: State, k: WireGuard.Key)
    requires forall sid :: sid in listing ==> sid in st.sessions
    ensures var t := WireGuard.Table(Entries(listing, st.sessions, st.psks));
            && (k in t <==> exists i :: Lists(listing, st, k, i))
            && (k in t ==> exists i :: Lists(listing, st, k, i) &&
                                       t[k] == WireGuard.Peer(st.sessions[listing[i]].ip, st.psks[listing[i]]))
  {
    if listing != [] {
      var n := |listing| - 1;
      var front, sid := listing[..n], listing[n];
      var t := WireGuard.Table(Entries(front, st.sessions, st.psks));
      var all := Entries(listing, st.sessions, st.psks);
      ListedTable(front, st, k);
      assert forall i :: Lists(front, st, k, i) ==> Lists(listing, st, k, i);
      assert forall i :: Lists(listing, st, k, i) && i < n ==> Lists(front, st, k, i);
      if sid in st.psks {
        assert all[..|all| - 1] == Entries(front, st.sessions, st.psks);
        assert Lists(listing, st, k, n) <==> st.sessions[sid].key == Some(k);
      } else {
        assert all == Entries(front, st.sessions, st.psks);
      }
    }
  }

  /** Replacing the peers from the session rows makes them exact, when no two sessions of the server share a key. */
  lemma SyncMakesExact(st: State, server: ServerID, env: SyncEnv)
    requires SyncSucceeds(st, server, env) && KeysDistinct(st.sessions, server)
    ensures PeersExact(Sync(st, server, env), server)
  {
    var listing := env.listing.value;
    var after := Sync(st, server, env);
    var t := after.peers[server];
    forall k | k in t ensures exists sid :: IsPeerOf(after, server, k, sid) {
      ListedTable(listing, st, k);
      var i :| Lists(listing, st, k, i);
      assert IsPeerOf(after, server, k, listing[i]);
    }
    forall k, sid | IsPeerOf(after, server, k, sid)
      ensures k in t && t[k] == WireGuard.Peer(st.sessions[sid].ip, st.psks[sid])
    {
      var i :| 0 <= i < |listing| && listing[i] == sid;
      assert Lists(listing, st, k, i);
      ListedTable(listing, st, k);
    }
  }

  /** A session's own peer is on the interface. */
  ghost predicate HasItsPeer(st: State, sid: SessionID)
    requires sid in st.sessions
  {
    var s := st.sessions[sid];
    s.server in st.peers && s.key.Some? && sid in st.psks &&
    s.key.value in st.peers[s.server] && st.peers[s.server][s.key.value] == WireGuard.Peer(s.ip, st.psks[sid])
  }

  /** After a successful sync every session of the server has its peer exactly when no two of them share a key. */
  lemma AllHavePeersIffKeysDistinct(st: State, server: ServerID, env: SyncEnv)
    requires Inv(st) && SyncSucceeds(st, server, env)
    ensures var after := Sync(st, server, env);
            (forall sid :: sid in st.sessions && st.sessions[sid].server == server ==> HasItsPeer(after, sid)) <==>
            KeysDistinct(st.sessions, server)
  {
    var after := Sync(st, server, env);
    if KeysDistinct(st.sessions, server) {
      SyncMakesExact(st, server, env);
      forall sid | sid in st.sessions && st.sessions[sid].server == server ensures HasItsPeer(after, sid) {
        assert IsPeerOf(after, server, st.sessions[sid].key.value, sid);
      }
    } else {
      var a, b :|
        && a in st.sessions && b in st.sessions && st.sessions[a].server == server && st.sessions[b].server == server
        && st.sessions[a].key == st.sessions[b].key && a != b;
    }
  }

  lemma ExactTablesAgree(st: State, other: State, server: ServerID)
    requires PeersExact(st, server) && PeersExact(other, server)
    requires st.sessions == other.sessions && st.psks == other.psks
    ensures st.peers[server] == other.peers[server]
  {
    forall k ensures k in st.peers[server] <==> k in other.peers[server] {
      if k in st.peers[server] {
        var sid :| IsPeerOf(st, server, k, sid);
        assert IsPeerOf(other, server, k, sid);
      }
      if k in other.peers[server] {
        var sid :| IsPeerOf(other, server, k, sid);
        assert IsPeerOf(st, server, k, sid);
      }
    }
    forall k | k in st.peers[server] ensures st.peers[server][k] == other.peers[server][k] {
      var sid :| IsPeerOf(st, server, k, sid);
      assert IsPeerOf(other, server, k, sid);
    }
  }

  // ---- A failed creation and the peers --------------------------------------------------

  /** Only the interface of this server may differ. */
  ghost predicate SameElsewhere(a: State, b: State, server: ServerID) {
    a.peers.Keys == b.peers.Keys && forall s :: s in a.peers && s != server ==> a.peers[s] == b.peers[s]
  }

  lemma HookTouchesOwnServer(st: State, s: Session, psk: string, env: CreateEnv)
    requires s.server in st.peers
    ensures SameElsewhere(st, Hook(st, s, psk, env).0, s.server)
  {
    if s.key.Some? && env.addPeerOk {
      assert HookRules(HookPeers(st, s, psk, env), s, env).0.peers == HookPeers(st, s, psk, env).peers;
    }
  }

  lemma DeleteTouchesOwnServer(st: State, sid: SessionID, s: Session, env: DeleteEnv)
    ensures SameElsewhere(st, Delete(st, sid, s, env), s.server)
  {
  }

  /** The last step of a clean rollback rebuilds the peers from the rows. */
  lemma RollbackPeers(st: State, h: State, sid: SessionID, s: Session, env: DeleteEnv)
    requires PeersExact(st, s.server) && KeysDistinct(st.sessions, s.server)
    requires SameElsewhere(st, h, s.server) && env.deleteOk
    requires SyncSucceeds(st, s.server, env.sync)
    requires Delete(h, sid, s, env).sessions == st.sessions && Delete(h, sid, s, env).psks == st.psks
    ensures Delete(h, sid, s, env).peers == st.peers
  {
    var u := Unhook(h, sid, s, env);
    var u' := u.(sessions := u.sessions - {sid});
    var d := Delete(h, sid, s, env);
    assert d == Sync(u', s.server, env.sync);
    assert SyncSucceeds(u', s.server, env.sync);
    SyncMakesExact(u', s.server, env.sync);
    ExactTablesAgree(st, d, s.server);
    DeleteTouchesOwnServer(h, sid, s, env);
  }

  /** Every call of the rollback succeeds. */
  ghost predicate RollbackSucceeds(st: State, server: ServerID, env: CreateEnv) {
    env.releaseOk && AllSucceed(env.undo) && SyncSucceeds(st, server, env.undo.sync)
  }

  lemma CleanRollbackUndoesRules(st: State, s: Session, outcome: Outcome, env: CreateEnv)
    requires AllSucceed(env.undo)
    ensures RulesUndone(st, s, outcome, env)
  {
    forall c | Appended(st, s, env, c) ensures c in Gone(st, s, env.undo) {
      AddFacts(st.chain, PlanOf(st, s), 0, env.ipt);
      DeletedWhenAllSucceed(PlanOf(st, s), env.undo.ipt, c);
    }
  }

  /** A creation that fails at any point, with a rollback whose calls succeed, leaves every store as it was. */
  lemma FailedCreateLeavesNoTrace(st: State, sid: SessionID, user: UserID, server: ServerID,
      key: Option<WireGuard.Key>, now: int, env: CreateEnv)
    requires Inv(st) && sid !in st.sessions
    requires server in st.peers ==>
               PeersExact(st, server) && KeysDistinct(st.sessions, server) && RollbackSucceeds(st, server, env)
    requires Create(st, sid, user, server, key, now, env).1 != Created
    ensures Create(st, sid, user, server, key, now, env).0 == st
  {
    var (d, outcome) := Create(st, sid, user, server, key, now, env);
    PrepareStores(st, sid, user, server, key, now, env);
    if server in st.peers {
      FailedCreateStores(st, sid, user, server, key, now, env);
      CleanRollbackUndoesRules(st, Session(user, server, key, env.pick.GetOr(0), now, now), outcome, env);
      var (p, prepared) := Prepare(st, sid, user, server, key, now, env);
      if prepared == Created {
        var s := p.sessions[sid];
        HookTouchesOwnServer(p, s, env.psk.value, env);
        HookStores(p, s, env.psk.value, env);
        RollbackPeers(st, Hook(p, s, env.psk.value, env).0, sid, s, env.undo);
        DeleteStores(Hook(p, s, env.psk.value, env).0, sid, s, env.undo);
      }
    }
  }
}
