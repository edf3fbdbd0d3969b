/** When a session can be created, and what each operation changes for its user (server/internal/session/manager.go). */
module SessionEffects {
  import opened Options
  import opened Text
  import opened Prefixes
  import opened Iptables
  import opened IPPool
  import opened Sessions
  import opened SessionFacts
  import opened SessionTraffic
  import opened SessionRuns
  import WireGuard
  import Firewall
  import SessionEndings

  // ---- When a session is created -----------------------------------------------------------

  lemma {:induction false} AppendsAll(chain: seq<ChainRule>, specs: seq<ChainRule>, i: nat, j: nat,
      ok: (nat, nat) -> bool)
    requires j <= |specs| && forall m: nat, n: nat :: ok(m, n)
    ensures AppendFrom(chain, specs, i, j, ok).1
    decreases |specs| - j
  {
    if j < |specs| {
      AppendsAll(AppendUnique(chain, specs[j]), specs, i, j + 1, ok);
    }
  }

  lemma {:induction false} AddsAll(chain: seq<ChainRule>, plan: Plan, i: nat, ok: (nat, nat) -> bool)
    requires i <= |plan| && (forall m: nat, n: nat :: ok(m, n)) && forall k :: i <= k < |plan| ==> plan[k].Some?
    ensures AddFrom(chain, plan, i, ok).1
    decreases |plan| - i
  {
    if i < |plan| {
      AppendsAll(chain, plan[i].value, i, 0, ok);
      AddsAll(AddOne(chain, plan, i, ok).0, plan, i + 1, ok);
    }
  }

  lemma ValidPlan(st: State, s: Session)
    requires ValidGrants(st)
    ensures var plan := PlanOf(st, s); forall i :: 0 <= i < |plan| ==> plan[i].Some?
  {
    var rows, plan := Granted(st.grants, s.server, s.user), PlanOf(st, s);
    forall i | 0 <= i < |plan| ensures plan[i].Some? {
      PlanAt(s.ip, rows, plan, i);
      ResourceMeaning(s.ip, rows[i], Packet(0, 0, Tcp, 0));
    }
  }

  /** The database, the interface and iptables do their part. */
  ghost predicate CallsSucceed(env: CreateEnv) {
    && env.psk.Some? && env.insertOk && env.addPeerOk && env.resourcesOk && env.endpointsOk
    && forall m: nat, n: nat :: env.ipt(m, n)
  }

  /**
   * If no call fails, a session is created exactly if the server runs, a free address was picked, and there is a key.
   */
  lemma {:induction false} CreateSucceedsIff(st: State, sid: SessionID, user: UserID, server: ServerID,
      key: Option<WireGuard.Key>, now: int, env: CreateEnv)
    requires ValidGrants(st) && CallsSucceed(env)
    ensures Create(st, sid, user, server, key, now, env).1 == Created <==>
            && server in st.peers && key.Some?
            && env.pick.Some? && (server, env.pick.value) in st.pool && st.pool[(server, env.pick.value)] == None
  {
    var (p, prepared) := Prepare(st, sid, user, server, key, now, env);
    if prepared == Created && key.Some? {
      var s := p.sessions[sid];
      var h := HookPeers(p, s, env.psk.value, env);
      ValidPlan(p, s);
      AddsAll(h.chain, PlanOf(p, s), 0, env.ipt);
      assert PlanOf(h, s) == PlanOf(p, s);
    }
  }

  /** Without one of the calls it is not created. */
  lemma {:induction false} CreateNeeds(st: State, sid: SessionID, user: UserID, server: ServerID,
      key: Option<WireGuard.Key>, now: int, env: CreateEnv)
    requires Create(st, sid, user, server, key, now, env).1 == Created
    ensures env.psk.Some? && env.insertOk && env.addPeerOk && env.resourcesOk && env.endpointsOk
  {
  }

  // ---- What it changes -------------------------------------------------------------------------

  /** The new session has the picked address and the preshared key, and nothing else about the stores' rows changes. */
  lemma {:induction false} CreatedSession(st: State, op: Op)
    requires Inv(st) && op.CreateOp? && op.sid !in st.sessions
    requires Create(st, op.sid, op.user, op.server, op.key, op.now, op.env).1 == Created
    ensures var e := Step(st, op);
            && op.env.pick.Some? && op.env.psk.Some?
            && e.sessions ==
               st.sessions[op.sid := Session(op.user, op.server, op.key, op.env.pick.value, op.now, op.now)]
            && e.psks == st.psks[op.sid := op.env.psk.value]
            && e.pool == st.pool[(op.server, op.env.pick.value) := Some(op.sid)]
            && e.grants == st.grants
  {
    PrepareStores(st, op.sid, op.user, op.server, op.key, op.now, op.env);
    var p := Prepare(st, op.sid, op.user, op.server, op.key, op.now, op.env).0;
    HookStores(p, p.sessions[op.sid], op.env.psk.value, op.env);
  }

  /** The access tables let the user send the packet. */
  ghost predicate GrantsAllow(st: State, server: ServerID, user: UserID, p: Packet) {
    (server, user) in st.grants && exists row :: row in st.grants[(server, user)] && RowAllows(row, p)
  }

  lemma AllowsByGrants(st: State, sid: SessionID, p: Packet)
    requires sid in st.sessions
    ensures SessionAllows(st, sid, p) <==>
            p.src == st.sessions[sid].ip && GrantsAllow(st, st.sessions[sid].server, st.sessions[sid].user, p)
  {
    var access := (st.sessions[sid].server, st.sessions[sid].user);
    if access in st.grants && GrantsAllow(st, access.0, access.1, p) {
      var row :| row in st.grants[access] && RowAllows(row, p);
      var i :| 0 <= i < |st.grants[access]| && st.grants[access][i] == row;
    }
  }

  lemma AllowsWithOneMore(st: State, e: State, sid: SessionID, s: Session, p: Packet)
    requires sid !in st.sessions && e.sessions == st.sessions[sid := s] && e.grants == st.grants
    ensures (exists other :: SessionAllows(e, other, p)) <==>
            (exists other :: SessionAllows(st, other, p)) || (p.src == s.ip && GrantsAllow(st, s.server, s.user, p))
  {
    AllowsByGrants(e, sid, p);
    forall other | other != sid ensures SessionAllows(e, other, p) <==> SessionAllows(st, other, p) {
    }
    if other :| SessionAllows(st, other, p) {
      assert SessionAllows(e, other, p);
    }
  }

  lemma TrafficWithOneMore(st: State, e: State, sid: SessionID, s: Session, p: Packet)
    requires Inv(st) && Inv(e) && ValidGrants(st)
    requires sid !in st.sessions && e.sessions == st.sessions[sid := s] && e.grants == st.grants
    ensures Accepts(e.chain, p) <==>
            Accepts(st.chain, p) || (p.src == s.ip && GrantsAllow(st, s.server, s.user, p))
  {
    ChainIsExact(st, p);
    ChainIsExact(e, p);
    AllowsWithOneMore(st, e, sid, s, p);
  }

  /**
   * A new session lets through what its user is granted, from its address, and nothing else changes in the firewall.
   */
  lemma {:induction false} CreatedTraffic(st: State, op: Op, p: Packet)
    requires Inv(st) && ValidGrants(st) && op.CreateOp? && op.sid !in st.sessions
    requires Create(st, op.sid, op.user, op.server, op.key, op.now, op.env).1 == Created
    ensures op.env.pick.Some?
    ensures Accepts(Step(st, op).chain, p) <==>
            || Accepts(st.chain, p)
            || (p.src == op.env.pick.value && GrantsAllow(st, op.server, op.user, p))
  {
    CreatedSession(st, op);
    CreateKeepsInv(st, op.sid, op.user, op.server, op.key, op.now, op.env);
    TrafficWithOneMore(st, Step(st, op), op.sid,
                       Session(op.user, op.server, op.key, op.env.pick.value, op.now, op.now), p);
  }

  lemma OneSessionPerAddress(st: State, a: SessionID, b: SessionID)
    requires Inv(st) && a in st.sessions && b in st.sessions && st.sessions[a].ip == st.sessions[b].ip
    ensures a == b
  {
  }

  lemma AllowsWithOneLess(st: State, d: State, sid: SessionID, p: Packet)
    requires sid in st.sessions && d.sessions == st.sessions - {sid} && d.grants == st.grants
    requires forall other :: other in st.sessions && st.sessions[other].ip == st.sessions[sid].ip ==> other == sid
    ensures (exists other :: SessionAllows(d, other, p)) <==>
            (exists other :: SessionAllows(st, other, p)) && p.src != st.sessions[sid].ip
  {
    forall other ensures SessionAllows(d, other, p) <==> other != sid && SessionAllows(st, other, p) {
    }
    if other :| SessionAllows(st, other, p) {
      assert other != sid ==> SessionAllows(d, other, p);
    }
  }

  lemma TrafficWithOneLess(st: State, d: State, sid: SessionID, p: Packet)
    requires Inv(st) && Inv(d) && ValidGrants(st)
    requires sid in st.sessions && d.sessions == st.sessions - {sid} && d.grants == st.grants
    ensures Accepts(d.chain, p) <==> Accepts(st.chain, p) && p.src != st.sessions[sid].ip
  {
    ChainIsExact(st, p);
    ChainIsExact(d, p);
    forall other | other in st.sessions && st.sessions[other].ip == st.sessions[sid].ip ensures other == sid {
      OneSessionPerAddress(st, other, sid);
    }
    AllowsWithOneLess(st, d, sid, p);
  }

  /** A session that is deleted takes all that was let through from its address with it, and nothing else. */
  lemma {:induction false} DeletedTraffic(st: State, sid: SessionID, env: DeleteEnv, p: Packet)
    requires Inv(st) && ValidGrants(st) && sid in st.sessions && AllSucceed(env)
    ensures Accepts(Delete(st, sid, st.sessions[sid], env).chain, p) <==>
            Accepts(st.chain, p) && p.src != st.sessions[sid].ip
  {
    AllSucceedIsClean(st, sid, env);
    CleanDeleteKeepsInv(st, sid, env);
    DeletedRows(st, sid, env);
    TrafficWithOneLess(st, Delete(st, sid, st.sessions[sid], env), sid, p);
  }

  lemma DeletedRows(st: State, sid: SessionID, env: DeleteEnv)
    requires NoDup(st.chain) && sid in st.sessions && env.deleteOk
    ensures var d := Delete(st, sid, st.sessions[sid], env);
            d.sessions == st.sessions - {sid} && d.grants == st.grants
  {
    DeleteStores(st, sid, st.sessions[sid], env);
  }

  /** If the user's resources cannot be read, a deletion leaves the firewall as it was. */
  lemma DeletedWithoutResources(st: State, sid: SessionID, s: Session, env: DeleteEnv)
    requires !env.resourcesOk
    ensures Delete(st, sid, s, env).chain == st.chain
  {
    UnhookStores(st, sid, s, env);
  }

  /** Grants count for the sessions that are created after them. */
  lemma {:induction false} GrantTakesEffect(st: State, grant: Op, op: Op, p: Packet)
    requires Good(st) && grant.GrantOp? && Legal(st, grant) && op.CreateOp? && op.sid !in st.sessions
    requires op.server == grant.server && op.user == grant.user
    requires Create(Step(st, grant), op.sid, op.user, op.server, op.key, op.now, op.env).1 == Created
    ensures op.env.pick.Some?
    ensures Accepts(Step(Step(st, grant), op).chain, p) <==>
            || Accepts(st.chain, p)
            || (p.src == op.env.pick.value && exists row :: row in grant.granted && RowAllows(row, p))
  {
    StepIsGood(st, grant);
    CreatedTraffic(Step(st, grant), op, p);
  }

  /** A session that sent a keepalive outlives every expiry until its timeout has passed since, and no later one. */
  lemma {:induction false} KeepaliveTakesEffect(st: State, sid: SessionID, t: int, op: Op, n: nat, now: int)
    requires Good(st) && sid in st.sessions && n > 0
    requires SessionEndings.Ends(Step(st, KeepaliveOp(sid, t)), op, Stale(Itoa(n), now))
    ensures sid in Step(Step(st, KeepaliveOp(sid, t)), op).sessions <==> now <= t + n
  {
    SessionEndings.StaleEnd(Step(st, KeepaliveOp(sid, t)), op, Itoa(n), n, now, sid);
  }

  // ---- Listings -----------------------------------------------------------------------------------

  lemma {:induction false} ListingOf(sids: set<SessionID>) returns (listing: seq<SessionID>)
    ensures (forall sid :: sid in listing <==> sid in sids)
    ensures forall i, j :: 0 <= i < j < |listing| ==> listing[i] != listing[j]
  {
    if sids == {} {
      listing := [];
    } else {
      var sid :| sid in sids;
      var rest := ListingOf(sids - {sid});
      listing := [sid] + rest;
    }
  }

  /** The database can list the sessions of every running server, and then syncing it gives each of them its entry. */
  lemma {:induction false} CanBeListed(st: State, server: ServerID) returns (listing: seq<SessionID>)
    requires server in st.peers
    ensures SyncSucceeds(st, server, SyncEnv(Some(listing), true))
    ensures !SyncSucceeds(st, server, SyncEnv(Some(listing), false)) && !SyncSucceeds(st, server, SyncEnv(None, true))
  {
    listing := ListingOf(set sid | sid in st.sessions && st.sessions[sid].server == server);
  }
}
