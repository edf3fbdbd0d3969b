/** The interfaces' peers over whole runs, and exactly when a failed creation leaves no trace. */
module SessionPeerRuns {
  import opened Options
  import opened IPPool
  import opened Sessions
  import opened SessionFacts
  import opened SessionPeers
  import opened SessionRuns
  import opened SessionTraffic
  import WireGuard

  /** Every running server's peers are exactly those of its sessions. */
  ghost predicate AllExact(st: State) {
    forall server :: server in st.peers ==> PeersExact(st, server)
  }

  /** No peer is without a session, and only sid may be without its peer. */
  ghost predicate ExactExcept(st: State, server: ServerID, sid: SessionID) {
    && server in st.peers
    && (forall k :: k in st.peers[server] ==> exists o :: IsPeerOf(st, server, k, o))
    && (forall k, o :: o != sid && IsPeerOf(st, server, k, o) ==>
          k in st.peers[server] && st.peers[server][k] == WireGuard.Peer(st.sessions[o].ip, st.psks[o]))
  }

  // ---- Two states with the same peers -------------------------------------------------

  /** The same sessions stand behind the same keys. */
  ghost predicate SamePeersDue(a: State, b: State, server: ServerID) {
    forall k, sid ::
      (IsPeerOf(a, server, k, sid) <==> IsPeerOf(b, server, k, sid)) &&
      (IsPeerOf(a, server, k, sid) && IsPeerOf(b, server, k, sid) ==>
         a.sessions[sid].ip == b.sessions[sid].ip && a.psks[sid] == b.psks[sid])
  }

  lemma SameDueSameExact(a: State, b: State, server: ServerID)
    requires PeersExact(a, server) && SamePeersDue(a, b, server)
    requires server in b.peers && b.peers[server] == a.peers[server]
    ensures PeersExact(b, server)
  {
    forall k | k in b.peers[server] ensures exists sid :: IsPeerOf(b, server, k, sid) {
      var sid :| IsPeerOf(a, server, k, sid);
      assert IsPeerOf(b, server, k, sid);
    }
    forall k, sid | IsPeerOf(b, server, k, sid)
      ensures k in b.peers[server] && b.peers[server][k] == WireGuard.Peer(b.sessions[sid].ip, b.psks[sid]) {
      assert IsPeerOf(a, server, k, sid);
    }
  }

  lemma SameDueSameTable(a: State, b: State, server: ServerID)
    requires PeersExact(a, server) && PeersExact(b, server) && SamePeersDue(a, b, server)
    ensures a.peers[server] == b.peers[server]
  {
    forall k | k in a.peers[server] ensures k in b.peers[server] && a.peers[server][k] == b.peers[server][k] {
      var sid :| IsPeerOf(a, server, k, sid);
      assert IsPeerOf(b, server, k, sid);
    }
    forall k | k in b.peers[server] ensures k in a.peers[server] {
      var sid :| IsPeerOf(b, server, k, sid);
      assert IsPeerOf(a, server, k, sid);
    }
  }

  // ---- A deletion and the peers ---------------------------------------------------------

  ghost predicate HasNoPeer(st: State, sid: SessionID, s: Session) {
    sid !in st.psks || s.key.None? || s.server !in st.peers || s.key.value !in st.peers[s.server]
  }

  /** The deletion finds no peer of the session, removes it, or rebuilds the table afterwards. */
  ghost predicate PeerGone(st: State, sid: SessionID, s: Session, env: DeleteEnv) {
    HasNoPeer(st, sid, s) || env.removePeerOk
      || (env.deleteOk && SyncSucceeds(st.(sessions := st.sessions - {sid}), s.server, env.sync))
  }

  lemma FewerKeysDistinct(sessions: map<SessionID, Session>, sid: SessionID, server: ServerID)
    requires KeysDistinct(sessions, server)
    ensures KeysDistinct(sessions - {sid}, server)
  {
  }

  /** Without its key in memory, or without its row, a session has no peer due. */
  lemma UnhookedExact(st: State, u: State, sid: SessionID, s: Session)
    requires sid in st.sessions && st.sessions[sid] == s && ExactExcept(st, s.server, sid)
             && KeysDistinct(st.sessions, s.server)
    requires u.psks == st.psks - {sid} && (u.sessions == st.sessions || u.sessions == st.sessions - {sid})
    requires s.server in u.peers
    requires u.peers[s.server] == (if s.key.Some? then st.peers[s.server] - {s.key.value} else st.peers[s.server])
             || (HasNoPeer(st, sid, s) && u.peers[s.server] == st.peers[s.server])
    ensures PeersExact(u, s.server)
  {
    forall k | k in u.peers[s.server] ensures exists o :: IsPeerOf(u, s.server, k, o) {
      var o :| IsPeerOf(st, s.server, k, o);
      assert IsPeerOf(u, s.server, k, o);
    }
    forall k, o | IsPeerOf(u, s.server, k, o)
      ensures k in u.peers[s.server] && u.peers[s.server][k] == WireGuard.Peer(u.sessions[o].ip, u.psks[o]) {
      assert o != sid && IsPeerOf(st, s.server, k, o);
    }
  }

  lemma DeleteExact(st: State, sid: SessionID, s: Session, env: DeleteEnv)
    requires sid in st.sessions && st.sessions[sid] == s && ExactExcept(st, s.server, sid)
             && KeysDistinct(st.sessions, s.server)
    requires PeerGone(st, sid, s, env)
    ensures PeersExact(Delete(st, sid, s, env), s.server)
  {
    var u := Unhook(st, sid, s, env);
    UnhookStores(st, sid, s, env);
    var gone := u.(sessions := u.sessions - {sid});
    if env.deleteOk && SyncSucceeds(gone, s.server, env.sync) {
      FewerKeysDistinct(st.sessions, sid, s.server);
      SyncMakesExact(gone, s.server, env.sync);
    } else {
      UnhookedExact(st, if env.deleteOk then gone else u, sid, s);
    }
  }

  lemma DeletePsksAndRows(st: State, sid: SessionID, s: Session, env: DeleteEnv)
    ensures var d := Delete(st, sid, s, env);
            && d.psks == st.psks - {sid} && d.peers.Keys == st.peers.Keys
            && d.sessions == (if env.deleteOk then st.sessions - {sid} else st.sessions)
  {
    UnhookStores(st, sid, s, env);
  }

  lemma DeleteKeepsOthersExact(st: State, sid: SessionID, s: Session, env: DeleteEnv, server: ServerID)
    requires sid in st.sessions && st.sessions[sid] == s && server != s.server && PeersExact(st, server)
    ensures PeersExact(Delete(st, sid, s, env), server)
  {
    DeleteTouchesOwnServer(st, sid, s, env);
    DeletePsksAndRows(st, sid, s, env);
    SameDueSameExact(st, Delete(st, sid, s, env), server);
  }

  lemma DeleteAllExact(st: State, sid: SessionID, env: DeleteEnv)
    requires AllExact(st) && AllKeysDistinct(st) && sid in st.sessions && PeerGone(st, sid, st.sessions[sid], env)
    ensures AllExact(Delete(st, sid, st.sessions[sid], env))
  {
    var s := st.sessions[sid];
    var d := Delete(st, sid, s, env);
    DeletePsksAndRows(st, sid, s, env);
    forall server | server in d.peers ensures PeersExact(d, server) {
      assert PeersExact(st, server) && KeysDistinct(st.sessions, server);
      if server == s.server {
        DeleteExact(st, sid, s, env);
      } else {
        DeleteKeepsOthersExact(st, sid, s, env, server);
      }
    }
  }

  /** Each deletion of the operation takes its peer away. */
  ghost predicate AllGone(st: State, rows: seq<SessionID>, sel: Selection, i: nat, envs: nat -> DeleteEnv)
    requires i <= |rows|
    decreases |rows| - i
  {
    if i == |rows| then true
    else
      var sid := rows[i];
      if sid in st.sessions && Picks(sel, st.peers.Keys, sid, st.sessions[sid]) then
        PeerGone(st, sid, st.sessions[sid], envs(i))
          && AllGone(Delete(st, sid, st.sessions[sid], envs(i)), rows, sel, i + 1, envs)
      else AllGone(st, rows, sel, i + 1, envs)
  }

  lemma {:induction false} EndAllExact(st: State, rows: seq<SessionID>, sel: Selection, i: nat, envs: nat -> DeleteEnv)
    requires i <= |rows| && AllExact(st) && AllKeysDistinct(st) && AllGone(st, rows, sel, i, envs)
    ensures AllExact(EndFrom(st, rows, sel, i, envs))
    decreases |rows| - i
  {
    if i < |rows| {
      var sid := rows[i];
      if sid in st.sessions && Picks(sel, st.peers.Keys, sid, st.sessions[sid]) {
        var d := Delete(st, sid, st.sessions[sid], envs(i));
        DeleteAllExact(st, sid, envs(i));
        DeletePsksAndRows(st, sid, st.sessions[sid], envs(i));
        SameKeysStayDistinct(st, d);
        EndAllExact(d, rows, sel, i + 1, envs);
      } else {
        EndAllExact(st, rows, sel, i + 1, envs);
      }
    }
  }

  // ---- A restart and the peers --------------------------------------------------------------

  /** No preshared key in memory and no peer on any interface. */
  ghost predicate Silent(st: State) {
    st.psks == map[] && forall server :: server in st.peers ==> st.peers[server] == map[]
  }

  lemma {:induction false} NoKeysNoEntries(listing: seq<SessionID>, sessions: map<SessionID, Session>,
      psks: map<SessionID, string>)
    requires psks == map[] && forall sid :: sid in listing ==> sid in sessions
    ensures Entries(listing, sessions, psks) == []
    decreases |listing|
  {
    if listing != [] {
      NoKeysNoEntries(listing[..|listing| - 1], sessions, psks);
    }
  }

  lemma SyncStaysSilent(st: State, server: ServerID, env: SyncEnv)
    requires Silent(st)
    ensures Silent(Sync(st, server, env))
  {
    if SyncSucceeds(st, server, env) {
      NoKeysNoEntries(env.listing.value, st.sessions, st.psks);
    }
  }

  lemma DeleteStaysSilent(st: State, sid: SessionID, s: Session, env: DeleteEnv)
    requires Silent(st)
    ensures Silent(Delete(st, sid, s, env))
  {
    var u := Unhook(st, sid, s, env);
    assert Silent(u);
    SyncStaysSilent(u.(sessions := u.sessions - {sid}), s.server, env.sync);
  }

  lemma {:induction false} EndStaysSilent(st: State, rows: seq<SessionID>, sel: Selection, i: nat,
      envs: nat -> DeleteEnv)
    requires i <= |rows| && Silent(st)
    ensures Silent(EndFrom(st, rows, sel, i, envs))
    decreases |rows| - i
  {
    if i < |rows| {
      var sid := rows[i];
      if sid in st.sessions && Picks(sel, st.peers.Keys, sid, st.sessions[sid]) {
        DeleteStaysSilent(st, sid, st.sessions[sid], envs(i));
        EndStaysSilent(Delete(st, sid, st.sessions[sid], envs(i)), rows, sel, i + 1, envs);
      } else {
        EndStaysSilent(st, rows, sel, i + 1, envs);
      }
    }
  }

  lemma RestartAllExact(st: State, op: Op)
    requires op.RestartOp? && op.cleared
    ensures AllExact(Step(st, op))
  {
    EndStaysSilent(FreshProcess(st, op.rebooted, op.cleared), op.rows, Everything, 0, op.envs);
  }

  // ---- A creation and the peers ---------------------------------------------------------------

  ghost predicate FreshKey(st: State, server: ServerID, key: Option<WireGuard.Key>) {
    forall other :: other in st.sessions && st.sessions[other].server == server ==> st.sessions[other].key != key
  }

  /** p is st with one more session, its key and nothing on the interface yet. */
  ghost predicate Prepared(st: State, p: State, sid: SessionID, s: Session, psk: string) {
    && sid !in st.sessions && sid !in st.psks && s.server in st.peers
    && p.sessions == st.sessions[sid := s] && p.psks == st.psks[sid := psk] && p.peers == st.peers
  }

  lemma PreparedExactExcept(st: State, p: State, sid: SessionID, s: Session, psk: string)
    requires Prepared(st, p, sid, s, psk) && PeersExact(st, s.server)
    ensures ExactExcept(p, s.server, sid)
  {
    forall k | k in p.peers[s.server] ensures exists o :: IsPeerOf(p, s.server, k, o) {
      var o :| IsPeerOf(st, s.server, k, o);
      assert IsPeerOf(p, s.server, k, o);
    }
    forall k, o | o != sid && IsPeerOf(p, s.server, k, o)
      ensures k in p.peers[s.server] && p.peers[s.server][k] == WireGuard.Peer(p.sessions[o].ip, p.psks[o]) {
      assert IsPeerOf(st, s.server, k, o);
    }
  }

  lemma PreparedKeys(st: State, p: State, sid: SessionID, s: Session, psk: string)
    requires Prepared(st, p, sid, s, psk) && KeysDistinct(st.sessions, s.server) && FreshKey(st, s.server, s.key)
    ensures KeysDistinct(p.sessions, s.server)
  {
  }

  lemma FreshKeyHasNoPeer(st: State, server: ServerID, k: WireGuard.Key)
    requires PeersExact(st, server) && FreshKey(st, server, Some(k))
    ensures k !in st.peers[server]
  {
  }

  lemma AddPeerExact(p: State, sid: SessionID, s: Session)
    requires ExactExcept(p, s.server, sid) && KeysDistinct(p.sessions, s.server)
    requires sid in p.sessions && p.sessions[sid] == s && sid in p.psks && s.key.Some?
    ensures PeersExact(AddPeer(p, s, p.psks[sid]), s.server)
  {
    var a := AddPeer(p, s, p.psks[sid]);
    forall k | k in a.peers[s.server] ensures exists o :: IsPeerOf(a, s.server, k, o) {
      if k == s.key.value {
        assert IsPeerOf(a, s.server, k, sid);
      } else {
        var o :| IsPeerOf(p, s.server, k, o);
        assert IsPeerOf(a, s.server, k, o);
      }
    }
    forall k, o | IsPeerOf(a, s.server, k, o)
      ensures k in a.peers[s.server] && a.peers[s.server][k] == WireGuard.Peer(a.sessions[o].ip, a.psks[o]) {
      assert IsPeerOf(p, s.server, k, o);
    }
  }

  /** However the sync after it goes, a hooked session's peer and all others are exact. */
  lemma HookExact(p: State, sid: SessionID, s: Session, env: CreateEnv)
    requires ExactExcept(p, s.server, sid) && KeysDistinct(p.sessions, s.server)
    requires sid in p.sessions && p.sessions[sid] == s && sid in p.psks
    ensures var (h, outcome) := Hook(p, s, p.psks[sid], env);
            if outcome == PeerFailed then h == p else s.key.Some? && PeersExact(h, s.server)
  {
    if s.key.Some? && env.addPeerOk {
      var a := AddPeer(p, s, p.psks[sid]);
      AddPeerExact(p, sid, s);
      if SyncSucceeds(a, s.server, env.sync) {
        SyncMakesExact(a, s.server, env.sync);
      }
      var hp := HookPeers(p, s, p.psks[sid], env);
      HookRulesChain(hp, s, env, PlanOf(hp, s));
      SameDueSameExact(hp, HookRules(hp, s, env).0, s.server);
    }
  }

  lemma HookKeepsOthersExact(st: State, p: State, h: State, sid: SessionID, s: Session, psk: string, server: ServerID)
    requires Prepared(st, p, sid, s, psk) && h.sessions == p.sessions && h.psks == p.psks
             && SameElsewhere(p, h, s.server)
    requires server != s.server && PeersExact(st, server)
    ensures PeersExact(h, server)
  {
    SameDueSameExact(st, h, server);
  }

  /** The peer of a failed creation was not added, was removed, or is gone from the rebuilt table. */
  ghost predicate PeersUndone(st: State, server: ServerID, outcome: Outcome, env: CreateEnv) {
    outcome in {NoServer, NoPsk, NoAddress, InsertFailed, PeerFailed} || env.undo.removePeerOk
    || (env.undo.deleteOk && SyncSucceeds(st, server, env.undo.sync))
  }

  lemma DropAdded(p: State, st: State, sid: SessionID, s: Session, psk: string)
    requires Prepared(st, p, sid, s, psk)
    ensures p.sessions - {sid} == st.sessions && p.psks - {sid} == st.psks
  {
    DropNew(st.sessions, sid, s);
    DropNew(st.psks, sid, psk);
  }

  /** Rolling back a prepared session whose hook failed leaves the peers exact if its peer is gone. */
  lemma RollbackExact(st: State, p: State, sid: SessionID, s: Session, psk: string, env: CreateEnv)
    requires Prepared(st, p, sid, s, psk) && PeersExact(st, s.server) && KeysDistinct(st.sessions, s.server)
             && FreshKey(st, s.server, s.key)
    requires Hook(p, s, psk, env).1 != Created && PeersUndone(st, s.server, Hook(p, s, psk, env).1, env)
    ensures PeersExact(Delete(Hook(p, s, psk, env).0, sid, s, env.undo), s.server)
  {
    var (h, outcome) := Hook(p, s, psk, env);
    PreparedExactExcept(st, p, sid, s, psk);
    PreparedKeys(st, p, sid, s, psk);
    HookExact(p, sid, s, env);
    HookStores(p, s, psk, env);
    DropAdded(p, st, sid, s, psk);
    if s.key.Some? {
      FreshKeyHasNoPeer(st, s.server, s.key.value);
    }
    DeleteExact(h, sid, s, env.undo);
  }

  /** A peer that is neither removed nor rebuilt away is still there. */
  lemma KeptPeer(st: State, h: State, sid: SessionID, s: Session, env: DeleteEnv)
    requires s.server in h.peers && s.key.Some? && s.key.value in h.peers[s.server]
    requires !env.removePeerOk
    requires !(env.deleteOk && SyncSucceeds(h.(sessions := h.sessions - {sid}), s.server, env.sync))
    requires s.server in st.peers && s.key.value !in st.peers[s.server]
    ensures Delete(h, sid, s, env).peers != st.peers
  {
    UnhookStores(h, sid, s, env);
    assert Delete(h, sid, s, env).peers == h.peers;
  }

  lemma StrandedPeer(st: State, p: State, sid: SessionID, s: Session, psk: string, env: CreateEnv)
    requires Prepared(st, p, sid, s, psk) && PeersExact(st, s.server) && KeysDistinct(st.sessions, s.server)
             && FreshKey(st, s.server, s.key)
    requires Hook(p, s, psk, env).1 != Created && !PeersUndone(st, s.server, Hook(p, s, psk, env).1, env)
    ensures Delete(Hook(p, s, psk, env).0, sid, s, env.undo).peers != st.peers
  {
    var h := Hook(p, s, psk, env).0;
    PreparedExactExcept(st, p, sid, s, psk);
    PreparedKeys(st, p, sid, s, psk);
    HookExact(p, sid, s, env);
    HookKeeps(p, s, psk, env);
    DropAdded(p, st, sid, s, psk);
    assert IsPeerOf(h, s.server, s.key.value, sid);
    FreshKeyHasNoPeer(st, s.server, s.key.value);
    KeptPeer(st, h, sid, s, env.undo);
  }

  lemma SamePeers(a: State, b: State, c: State, server: ServerID)
    requires SameElsewhere(a, b, server) && SameElsewhere(b, c, server)
    requires server in a.peers && c.peers[server] == a.peers[server]
    ensures c.peers == a.peers
  {
    assert forall s :: s in a.peers ==> c.peers[s] == a.peers[s];
  }

  lemma UndonePeers(st: State, p: State, sid: SessionID, s: Session, psk: string, env: CreateEnv)
    requires Prepared(st, p, sid, s, psk) && PeersExact(st, s.server)
    requires PeersExact(Delete(Hook(p, s, psk, env).0, sid, s, env.undo), s.server)
    ensures Delete(Hook(p, s, psk, env).0, sid, s, env.undo).peers == st.peers
  {
    var h := Hook(p, s, psk, env).0;
    var d := Delete(h, sid, s, env.undo);
    HookKeeps(p, s, psk, env);
    DeletePsksAndRows(h, sid, s, env.undo);
    DropAdded(p, st, sid, s, psk);
    SameDueSameTable(st, d, s.server);
    HookTouchesOwnServer(p, s, psk, env);
    DeleteTouchesOwnServer(h, sid, s, env.undo);
    SamePeers(p, h, d, s.server);
  }

  lemma RollbackPeersIff(st: State, p: State, sid: SessionID, s: Session, psk: string, env: CreateEnv)
    requires Prepared(st, p, sid, s, psk) && PeersExact(st, s.server) && KeysDistinct(st.sessions, s.server)
             && FreshKey(st, s.server, s.key)
    requires Hook(p, s, psk, env).1 != Created
    ensures Delete(Hook(p, s, psk, env).0, sid, s, env.undo).peers == st.peers
            <==> PeersUndone(st, s.server, Hook(p, s, psk, env).1, env)
  {
    if PeersUndone(st, s.server, Hook(p, s, psk, env).1, env) {
      RollbackExact(st, p, sid, s, psk, env);
      UndonePeers(st, p, sid, s, psk, env);
    } else {
      StrandedPeer(st, p, sid, s, psk, env);
    }
  }

  /** A failed creation of a fresh key leaves all six stores as they were exactly when each of them was undone. */
  lemma FailedCreateLeavesNoTraceIff(st: State, sid: SessionID, user: UserID, server: ServerID,
      key: Option<WireGuard.Key>, now: int, env: CreateEnv)
    requires Inv(st) && sid !in st.sessions && FreshKey(st, server, key)
    requires server in st.peers ==> PeersExact(st, server) && KeysDistinct(st.sessions, server)
    requires Create(st, sid, user, server, key, now, env).1 != Created
    ensures var (d, outcome) := Create(st, sid, user, server, key, now, env);
            d == st <==>
              && PoolUndone(outcome, env) && RowUndone(outcome, env)
              && RulesUndone(st, Session(user, server, key, env.pick.GetOr(0), now, now), outcome, env)
              && PeersUndone(st, server, outcome, env)
  {
    FailedCreateStores(st, sid, user, server, key, now, env);
    PrepareStores(st, sid, user, server, key, now, env);
    var (p, prepared) := Prepare(st, sid, user, server, key, now, env);
    if prepared == Created {
      RollbackPeersIff(st, p, sid, p.sessions[sid], env.psk.value, env);
    }
  }

  // ---- Runs ------------------------------------------------------------------------------------

  /** Start-up clears the interfaces, and whatever ends a session takes its peer away. */
  ghost predicate PeersFollow(st: State, op: Op) {
    match op
    case CreateOp(sid, user, server, key, now, env) =>
      var outcome := Create(st, sid, user, server, key, now, env).1;
      outcome != Created ==> PeersUndone(st, server, outcome, env)
    case EndOp(sel, rows, envs) => AllGone(st, rows, sel, 0, envs)
    case RestartOp(_, cleared, _, _) => cleared
    case _ => true
  }

  lemma SuccessAllExact(st: State, p: State, sid: SessionID, s: Session, psk: string, env: CreateEnv)
    requires Prepared(st, p, sid, s, psk) && AllExact(st) && AllKeysDistinct(st) && FreshKey(st, s.server, s.key)
    requires Hook(p, s, psk, env).1 == Created
    ensures AllExact(Hook(p, s, psk, env).0)
  {
    var h := Hook(p, s, psk, env).0;
    HookStores(p, s, psk, env);
    HookTouchesOwnServer(p, s, psk, env);
    forall server | server in h.peers ensures PeersExact(h, server) {
      assert PeersExact(st, server) && KeysDistinct(st.sessions, server);
      if server == s.server {
        PreparedExactExcept(st, p, sid, s, psk);
        PreparedKeys(st, p, sid, s, psk);
        HookExact(p, sid, s, env);
      } else {
        HookKeepsOthersExact(st, p, h, sid, s, psk, server);
      }
    }
  }

  lemma FailureAllExact(st: State, p: State, sid: SessionID, s: Session, psk: string, env: CreateEnv)
    requires Prepared(st, p, sid, s, psk) && AllExact(st) && AllKeysDistinct(st) && FreshKey(st, s.server, s.key)
    requires Hook(p, s, psk, env).1 != Created && PeersUndone(st, s.server, Hook(p, s, psk, env).1, env)
    ensures AllExact(Delete(Hook(p, s, psk, env).0, sid, s, env.undo))
  {
    var h := Hook(p, s, psk, env).0;
    var d := Delete(h, sid, s, env.undo);
    HookStores(p, s, psk, env);
    HookTouchesOwnServer(p, s, psk, env);
    DeletePsksAndRows(h, sid, s, env.undo);
    forall server | server in d.peers ensures PeersExact(d, server) {
      assert PeersExact(st, server) && KeysDistinct(st.sessions, server);
      if server == s.server {
        RollbackExact(st, p, sid, s, psk, env);
      } else {
        HookKeepsOthersExact(st, p, h, sid, s, psk, server);
        DeleteKeepsOthersExact(h, sid, s, env.undo, server);
      }
    }
  }

  lemma SameRowsAllExact(st: State, e: State)
    requires AllExact(st) && e.peers == st.peers
    requires forall server :: SamePeersDue(st, e, server)
    ensures AllExact(e)
  {
    forall server | server in e.peers ensures PeersExact(e, server) {
      SameDueSameExact(st, e, server);
    }
  }

  lemma CreateAllExact(st: State, op: Op)
    requires Good(st) && AllExact(st) && op.CreateOp? && Legal(st, op) && PeersFollow(st, op)
    ensures AllExact(Step(st, op))
  {
    PrepareStores(st, op.sid, op.user, op.server, op.key, op.now, op.env);
    var (p, prepared) := Prepare(st, op.sid, op.user, op.server, op.key, op.now, op.env);
    if prepared == Created {
      var s, psk := p.sessions[op.sid], op.env.psk.value;
      if Hook(p, s, psk, op.env).1 == Created {
        SuccessAllExact(st, p, op.sid, s, psk, op.env);
      } else {
        FailureAllExact(st, p, op.sid, s, psk, op.env);
      }
    } else {
      SameRowsAllExact(st, p);
    }
  }

  lemma TimesAllExact(st: State, e: State)
    requires AllExact(st) && e == st.(sessions := e.sessions) && SameButTimes(st.sessions, e.sessions)
    ensures AllExact(e)
  {
    SameRowsAllExact(st, e);
  }

  lemma StepAllExact(st: State, op: Op)
    requires Good(st) && AllExact(st) && Legal(st, op) && PeersFollow(st, op)
    ensures AllExact(Step(st, op))
  {
    match op
    case CreateOp(_, _, _, _, _, _) => CreateAllExact(st, op);
    case EndOp(sel, rows, envs) => EndAllExact(st, rows, sel, 0, envs);
    case RestartOp(_, _, _, _) => RestartAllExact(st, op);
    case KeepaliveOp(_, _) => TimesAllExact(st, Step(st, op));
    case GrantOp(_, _, _) => SameRowsAllExact(st, Step(st, op));
  }

  ghost predicate PeersFollowRun(st: State, ops: seq<Op>)
    decreases |ops|
  {
    ops != [] ==> PeersFollow(st, ops[0]) && PeersFollowRun(Step(st, ops[0]), ops[1..])
  }

  lemma {:induction false} RunAllExact(st: State, ops: seq<Op>)
    requires Good(st) && AllExact(st) && LegalRun(st, ops) && PeersFollowRun(st, ops)
    ensures AllExact(Run(st, ops))
    decreases |ops|
  {
    if ops != [] {
      StepIsGood(st, ops[0]);
      StepAllExact(st, ops[0]);
      RunAllExact(Step(st, ops[0]), ops[1..]);
    }
  }

  /**
   * In the runs from a restart that cleared the interfaces, every running server has exactly its sessions' peers
   * throughout.
   */
  lemma {:induction false} RunsKeepPeersExact(st: State, restart: Op, ops: seq<Op>)
    requires Recoverable(st) && ValidGrants(st) && restart.RestartOp?
    requires LegalRun(st, [restart] + ops) && PeersFollowRun(st, [restart] + ops)
    ensures AllExact(Run(st, [restart] + ops))
  {
    assert ([restart] + ops)[1..] == ops;
    RestartIsGood(st, restart);
    RestartAllExact(st, restart);
    RunAllExact(Step(st, restart), ops);
  }

  /** So in these runs, a creation that fails leaves no trace exactly when each store was undone. */
  lemma {:induction false} RunsFailedCreateIff(st: State, restart: Op, ops: seq<Op>, op: Op)
    requires Recoverable(st) && ValidGrants(st) && restart.RestartOp?
    requires LegalRun(st, [restart] + ops) && PeersFollowRun(st, [restart] + ops)
    requires op.CreateOp? && op.sid !in Run(st, [restart] + ops).sessions
             && FreshKey(Run(st, [restart] + ops), op.server, op.key)
    requires Create(Run(st, [restart] + ops), op.sid, op.user, op.server, op.key, op.now, op.env).1 != Created
    ensures var before := Run(st, [restart] + ops);
            var outcome := Create(before, op.sid, op.user, op.server, op.key, op.now, op.env).1;
            Step(before, op) == before <==>
              && PoolUndone(outcome, op.env) && RowUndone(outcome, op.env)
              && RulesUndone(before, Session(op.user, op.server, op.key, op.env.pick.GetOr(0), op.now, op.now),
                outcome, op.env)
              && PeersUndone(before, op.server, outcome, op.env)
  {
    RunFromRestart(st, restart, ops);
    RunsKeepPeersExact(st, restart, ops);
    var before := Run(st, [restart] + ops);
    assert KeysDistinct(before.sessions, op.server);
    FailedCreateLeavesNoTraceIff(before, op.sid, op.user, op.server, op.key, op.now, op.env);
  }
}
