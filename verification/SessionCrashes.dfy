/** What a crash inside an operation leaves, and the runs that start from it. */
module SessionCrashes {
  import opened Options
  import opened Iptables
  import opened IPPool
  import opened Sessions
  import opened SessionFacts
  import opened SessionTraffic
  import opened SessionRuns
  import WireGuard

  /** The state without the leaked addresses: occupied ones whose session has no row. */
  function Core(st: State, leak: Rows): State {
    st.(pool := st.pool - leak.Keys)
  }

  function WithLeak(st: State, leak: Rows): State {
    st.(pool := st.pool + leak)
  }

  /** The leaked rows are occupied, and no session's. */
  ghost predicate Apart(st: State, leak: Rows) {
    && leak.Keys !! st.pool.Keys
    && (forall row :: row in leak ==> leak[row].Some?)
    && (forall sid :: sid in st.sessions ==> (st.sessions[sid].server, st.sessions[sid].ip) !in leak)
  }

  /** Recoverable, apart from leaked addresses. */
  ghost predicate Crashed(st: State, leak: Rows) {
    && Recoverable(Core(st, leak)) && Apart(Core(st, leak), leak)
    && (forall row :: row in leak ==> row in st.pool && st.pool[row] == leak[row])
  }

  lemma CoreWithLeak(st: State, leak: Rows)
    requires forall row :: row in leak ==> row in st.pool && st.pool[row] == leak[row]
    ensures WithLeak(Core(st, leak), leak) == st
  {
    assert st.pool - leak.Keys + leak == st.pool;
  }

  lemma WithLeakCore(core: State, leak: Rows)
    requires Apart(core, leak)
    ensures Core(WithLeak(core, leak), leak) == core
  {
    assert core.pool + leak - leak.Keys == core.pool;
  }

  lemma WithLeakIsCrashed(core: State, leak: Rows)
    requires Recoverable(core) && Apart(core, leak)
    ensures Crashed(WithLeak(core, leak), leak)
  {
    WithLeakCore(core, leak);
  }

  // ---- Leaked addresses are inert -----------------------------------------------------

  lemma ReleaseWithLeak(pool: Rows, leak: Rows, server: ServerID, ip: nat)
    requires (server, ip) !in leak
    ensures ReleaseRow(pool + leak, server, ip) == ReleaseRow(pool, server, ip) + leak
  {
  }

  lemma AllocateWithLeak(pool: Rows, leak: Rows, server: ServerID, ip: nat, sid: SessionID)
    requires (server, ip) !in leak
    ensures AllocateRow(pool + leak, server, ip, sid) == AllocateRow(pool, server, ip, sid) + leak
  {
  }

  lemma FreeWithLeak(pool: Rows, leak: Rows, server: ServerID, ip: nat)
    requires leak.Keys !! pool.Keys && forall row :: row in leak ==> leak[row].Some?
    ensures IsFree(pool + leak, server, ip) == IsFree(pool, server, ip)
  {
  }

  lemma UnhookWithLeak(st: State, leak: Rows, sid: SessionID, s: Session, env: DeleteEnv)
    requires (s.server, s.ip) !in leak
    ensures Unhook(WithLeak(st, leak), sid, s, env) == WithLeak(Unhook(st, sid, s, env), leak)
  {
    ReleaseWithLeak(st.pool, leak, s.server, s.ip);
    assert RemovePeer(WithLeak(st, leak), s, env.removePeerOk) == WithLeak(RemovePeer(st, s, env.removePeerOk), leak);
  }

  lemma SyncWithLeak(st: State, leak: Rows, server: ServerID, env: SyncEnv)
    ensures Sync(WithLeak(st, leak), server, env) == WithLeak(Sync(st, server, env), leak)
  {
  }

  lemma DeleteWithLeak(st: State, leak: Rows, sid: SessionID, s: Session, env: DeleteEnv)
    requires (s.server, s.ip) !in leak
    ensures Delete(WithLeak(st, leak), sid, s, env) == WithLeak(Delete(st, sid, s, env), leak)
  {
    UnhookWithLeak(st, leak, sid, s, env);
    var u := Unhook(st, sid, s, env);
    SyncWithLeak(u.(sessions := u.sessions - {sid}), leak, s.server, env.sync);
  }

  lemma DeleteKeepsApart(st: State, leak: Rows, sid: SessionID, s: Session, env: DeleteEnv)
    requires Apart(st, leak)
    ensures Apart(Delete(st, sid, s, env), leak)
  {
    UnhookStores(st, sid, s, env);
  }

  lemma {:induction false} EndKeepsApart(st: State, leak: Rows, rows: seq<SessionID>, sel: Selection, i: nat,
      envs: nat -> DeleteEnv)
    requires i <= |rows| && Apart(st, leak)
    ensures Apart(EndFrom(st, rows, sel, i, envs), leak)
    decreases |rows| - i
  {
    if i < |rows| {
      var sid := rows[i];
      if sid in st.sessions && Picks(sel, st.peers.Keys, sid, st.sessions[sid]) {
        DeleteKeepsApart(st, leak, sid, st.sessions[sid], envs(i));
        EndKeepsApart(Delete(st, sid, st.sessions[sid], envs(i)), leak, rows, sel, i + 1, envs);
      } else {
        EndKeepsApart(st, leak, rows, sel, i + 1, envs);
      }
    }
  }

  lemma {:induction false} EndWithLeak(st: State, leak: Rows, rows: seq<SessionID>, sel: Selection, i: nat,
      envs: nat -> DeleteEnv)
    requires i <= |rows| && Apart(st, leak)
    ensures EndFrom(WithLeak(st, leak), rows, sel, i, envs) == WithLeak(EndFrom(st, rows, sel, i, envs), leak)
    decreases |rows| - i
  {
    if i < |rows| {
      var sid := rows[i];
      if sid in st.sessions && Picks(sel, st.peers.Keys, sid, st.sessions[sid]) {
        DeleteWithLeak(st, leak, sid, st.sessions[sid], envs(i));
        DeleteKeepsApart(st, leak, sid, st.sessions[sid], envs(i));
        EndWithLeak(Delete(st, sid, st.sessions[sid], envs(i)), leak, rows, sel, i + 1, envs);
      } else {
        EndWithLeak(st, leak, rows, sel, i + 1, envs);
      }
    }
  }

  lemma HoldWithLeak(st: State, leak: Rows, sid: SessionID, server: ServerID, ip: nat, psk: string)
    requires (server, ip) !in leak
    ensures Hold(WithLeak(st, leak), sid, server, ip, psk) == WithLeak(Hold(st, sid, server, ip, psk), leak)
  {
    AllocateWithLeak(st.pool, leak, server, ip, sid);
  }

  lemma UnholdWithLeak(held: State, leak: Rows, sid: SessionID, server: ServerID, ip: nat, ok: bool)
    requires (server, ip) !in leak
    ensures Unhold(WithLeak(held, leak), sid, server, ip, ok) == WithLeak(Unhold(held, sid, server, ip, ok), leak)
  {
    ReleaseWithLeak(held.pool, leak, server, ip);
  }

  lemma PrepareFreeWithLeak(st: State, leak: Rows, sid: SessionID, user: UserID, server: ServerID,
      key: Option<WireGuard.Key>, now: int, env: CreateEnv, ip: nat)
    requires env.psk.Some? && env.pick == Some(ip) && (server, ip) !in leak && server in st.peers
    requires IsFree(st.pool, server, ip) && IsFree(st.pool + leak, server, ip)
    ensures var (p, outcome) := Prepare(st, sid, user, server, key, now, env);
            Prepare(WithLeak(st, leak), sid, user, server, key, now, env) == (WithLeak(p, leak), outcome)
  {
    var held := Hold(st, sid, server, ip, env.psk.value);
    HoldWithLeak(st, leak, sid, server, ip, env.psk.value);
    UnholdWithLeak(held, leak, sid, server, ip, env.releaseOk);
  }

  lemma PrepareWithLeak(st: State, leak: Rows, sid: SessionID, user: UserID, server: ServerID,
      key: Option<WireGuard.Key>, now: int, env: CreateEnv)
    requires Apart(st, leak)
    ensures var (p, outcome) := Prepare(st, sid, user, server, key, now, env);
            Prepare(WithLeak(st, leak), sid, user, server, key, now, env) == (WithLeak(p, leak), outcome)
  {
    if server in st.peers && env.psk.Some? && env.pick.Some? {
      FreeWithLeak(st.pool, leak, server, env.pick.value);
      if IsFree(st.pool, server, env.pick.value) {
        PrepareFreeWithLeak(st, leak, sid, user, server, key, now, env, env.pick.value);
      }
    }
  }

  lemma PrepareKeepsApart(st: State, leak: Rows, sid: SessionID, user: UserID, server: ServerID,
      key: Option<WireGuard.Key>, now: int, env: CreateEnv)
    requires Apart(st, leak)
    ensures Apart(Prepare(st, sid, user, server, key, now, env).0, leak)
  {
    assert Prepare(st, sid, user, server, key, now, env).0.pool.Keys == st.pool.Keys;
  }

  lemma HookWithLeak(st: State, leak: Rows, s: Session, psk: string, env: CreateEnv)
    requires s.server in st.peers
    ensures var (h, outcome) := Hook(st, s, psk, env);
            Hook(WithLeak(st, leak), s, psk, env) == (WithLeak(h, leak), outcome)
  {
    if s.key.Some? && env.addPeerOk {
      SyncWithLeak(AddPeer(st, s, psk), leak, s.server, env.sync);
      assert AddPeer(WithLeak(st, leak), s, psk) == WithLeak(AddPeer(st, s, psk), leak);
      var hp := HookPeers(st, s, psk, env);
      assert PlanOf(WithLeak(hp, leak), s) == PlanOf(hp, s);
    }
  }

  lemma RollbackWithLeak(p: State, leak: Rows, sid: SessionID, s: Session, psk: string, env: CreateEnv)
    requires Apart(p, leak) && sid in p.sessions && p.sessions[sid] == s && s.server in p.peers
    ensures var h := Hook(p, s, psk, env).0;
            Delete(WithLeak(h, leak), sid, s, env.undo) == WithLeak(Delete(h, sid, s, env.undo), leak)
  {
    DeleteWithLeak(Hook(p, s, psk, env).0, leak, sid, s, env.undo);
  }

  lemma CreateWithLeak(st: State, leak: Rows, sid: SessionID, user: UserID, server: ServerID,
      key: Option<WireGuard.Key>, now: int, env: CreateEnv)
    requires Apart(st, leak)
    ensures var (d, outcome) := Create(st, sid, user, server, key, now, env);
            Create(WithLeak(st, leak), sid, user, server, key, now, env) == (WithLeak(d, leak), outcome)
  {
    PrepareWithLeak(st, leak, sid, user, server, key, now, env);
    PrepareKeepsApart(st, leak, sid, user, server, key, now, env);
    var (p, prepared) := Prepare(st, sid, user, server, key, now, env);
    if prepared == Created {
      HookWithLeak(p, leak, p.sessions[sid], env.psk.value, env);
      RollbackWithLeak(p, leak, sid, p.sessions[sid], env.psk.value, env);
    }
  }

  lemma HookedOffKeepsApart(p: State, leak: Rows, sid: SessionID, s: Session, psk: string, env: CreateEnv)
    requires Apart(p, leak) && s.server in p.peers
    ensures var h := Hook(p, s, psk, env).0; Apart(h, leak) && Apart(Delete(h, sid, s, env.undo), leak)
  {
    DeleteKeepsApart(Hook(p, s, psk, env).0, leak, sid, s, env.undo);
  }

  lemma CreateKeepsApart(st: State, leak: Rows, sid: SessionID, user: UserID, server: ServerID,
      key: Option<WireGuard.Key>, now: int, env: CreateEnv)
    requires Apart(st, leak)
    ensures Apart(Create(st, sid, user, server, key, now, env).0, leak)
  {
    assert Apart(Prepare(st, sid, user, server, key, now, env).0, leak) by {
      PrepareKeepsApart(st, leak, sid, user, server, key, now, env);
    }
    var (p, prepared) := Prepare(st, sid, user, server, key, now, env);
    if prepared == Created {
      HookedOffKeepsApart(p, leak, sid, p.sessions[sid], env.psk.value, env);
    } else {
      assert Create(st, sid, user, server, key, now, env).0 == p;
    }
  }

  lemma StepWithLeak(st: State, leak: Rows, op: Op)
    requires Apart(st, leak)
    ensures Step(WithLeak(st, leak), op) == WithLeak(Step(st, op), leak) && Apart(Step(st, op), leak)
  {
    match op
    case CreateOp(sid, user, server, key, now, env) =>
      CreateWithLeak(st, leak, sid, user, server, key, now, env);
      CreateKeepsApart(st, leak, sid, user, server, key, now, env);
    case EndOp(sel, rows, envs) =>
      EndWithLeak(st, leak, rows, sel, 0, envs);
      EndKeepsApart(st, leak, rows, sel, 0, envs);
    case RestartOp(rebooted, cleared, rows, envs) =>
      EndWithLeak(FreshProcess(st, rebooted, cleared), leak, rows, Everything, 0, envs);
      EndKeepsApart(FreshProcess(st, rebooted, cleared), leak, rows, Everything, 0, envs);
    case _ =>
  }

  lemma LegalWithLeak(st: State, leak: Rows, op: Op)
    ensures Legal(WithLeak(st, leak), op) <==> Legal(st, op)
  {
  }

  /** No operation looks at a leaked address: the run goes on as if it were not there. */
  lemma {:induction false} RunWithLeak(st: State, leak: Rows, ops: seq<Op>)
    requires Apart(st, leak)
    ensures Run(WithLeak(st, leak), ops) == WithLeak(Run(st, ops), leak) && Apart(Run(st, ops), leak)
    ensures LegalRun(WithLeak(st, leak), ops) <==> LegalRun(st, ops)
    decreases |ops|
  {
    if ops != [] {
      LegalWithLeak(st, leak, ops[0]);
      StepWithLeak(st, leak, ops[0]);
      RunWithLeak(Step(st, ops[0]), leak, ops[1..]);
    }
  }

  // ---- Runs from a crash ------------------------------------------------------------------

  lemma TrafficWithLeak(st: State, leak: Rows, p: Packet)
    requires Accepts(st.chain, p) <==> exists sid :: SessionAllows(st, sid, p)
    ensures Accepts(WithLeak(st, leak).chain, p) <==> exists sid :: SessionAllows(WithLeak(st, leak), sid, p)
  {
    assert forall sid :: SessionAllows(WithLeak(st, leak), sid, p) <==> SessionAllows(st, sid, p);
  }

  /** The occupied addresses are those of the sessions, one for each, and the leaked ones. */
  ghost predicate PoolMatchesBut(pool: Rows, leak: Rows, sessions: map<SessionID, Session>) {
    && PoolMatches(pool - leak.Keys, sessions)
    && (forall row :: row in leak ==> row in pool && pool[row] == leak[row])
  }

  lemma PoolWithLeak(st: State, leak: Rows)
    requires Apart(st, leak) && PoolMatches(st.pool, st.sessions)
    ensures PoolMatchesBut(WithLeak(st, leak).pool, leak, st.sessions)
  {
    assert st.pool + leak - leak.Keys == st.pool;
  }

  /**
   * From a crash anywhere inside an operation, start-up and then any run: keys and firewall agree with the session
   * rows, and so do the occupied addresses, but for those that crashes leaked, which stay occupied for good.
   */
  lemma {:induction false} CrashedRunsAreExact(st: State, leak: Rows, restart: Op, ops: seq<Op>, p: Packet)
    requires Crashed(st, leak) && ValidGrants(st) && restart.RestartOp? && LegalRun(st, [restart] + ops)
    ensures var now := Run(st, [restart] + ops);
            && PoolMatchesBut(now.pool, leak, now.sessions)
            && now.psks.Keys == now.sessions.Keys
            && (Accepts(now.chain, p) <==> exists sid :: SessionAllows(now, sid, p))
  {
    var core := Core(st, leak);
    CoreWithLeak(st, leak);
    RunWithLeak(core, leak, [restart] + ops);
    RunsAreExact(core, restart, ops, p);
    TrafficWithLeak(Run(core, [restart] + ops), leak, p);
    PoolWithLeak(Run(core, [restart] + ops), leak);
  }

  /** Start-up after a crash leaves no session, key or rule, and frees every address exactly if none was leaked. */
  lemma CrashedRestartEmptiesIff(st: State, leak: Rows, restart: Op)
    requires Crashed(st, leak) && restart.RestartOp? && Legal(st, restart)
    ensures var e := Step(st, restart);
            && e.sessions == map[] && e.psks == map[] && e.chain == []
            && (forall row :: row in e.pool ==> (e.pool[row].Some? <==> row in leak))
            && (Empty(e) <==> leak == map[])
  {
    var core := Core(st, leak);
    CoreWithLeak(st, leak);
    StepWithLeak(core, leak, restart);
    LegalWithLeak(core, leak, restart);
    RestartEmpties(core, restart);
    var e := Step(st, restart);
    if leak != map[] {
      var row :| row in leak;
      assert row in e.pool && e.pool[row].Some?;
    }
  }

  // ---- Crashes inside an operation -----------------------------------------------------------

  lemma NoLeakIsCrashed(st: State)
    requires Recoverable(st)
    ensures Crashed(st, map[])
  {
    assert Core(st, map[]) == st;
  }

  lemma InvIsRecoverable(st: State)
    requires Inv(st)
    ensures Recoverable(st)
  {
  }

  /**
   * A crash before the DELETE: some of the session's rules, its key and perhaps its address are gone, its row is not.
   */
  lemma CrashedDelete(st: State, sid: SessionID, env: DeleteEnv)
    requires Recoverable(st) && sid in st.sessions && !env.deleteOk
    ensures Recoverable(Delete(st, sid, st.sessions[sid], env))
  {
    var s := st.sessions[sid];
    var d := Delete(st, sid, s, env);
    DeleteStores(st, sid, s, env);
    WithoutNoDup(st.chain, Gone(st, s, env));
    forall c | c in d.chain ensures exists other :: Owns(d, other, c) {
      var other :| Owns(st, other, c);
      assert Owns(d, other, c);
    }
  }

  /** A creation up to its row and some of its rules. */
  lemma HalfCreatedIsRecoverable(st: State, h: State, sid: SessionID, s: Session)
    requires Inv(st) && PartlyAdded(st, h, sid, s)
    ensures Recoverable(h)
  {
    AddedKeepsPool(st, h, sid, s);
    forall c | c in h.chain ensures exists other :: Owns(h, other, c) {
      AddedRuleIsOwned(st, h, sid, s, c);
    }
  }

  lemma FewerRowsRecoverable(st: State, e: State, row: Row)
    requires Inv(st) && IsFree(st.pool, row.0, row.1)
    requires e == st.(pool := st.pool - {row}, psks := e.psks)
    ensures Recoverable(e) && Apart(e, map[row := Some("")])
  {
    forall c | c in e.chain ensures exists other :: Owns(e, other, c) {
      var other :| Owns(st, other, c);
      assert Owns(e, other, c);
    }
  }

  /** The address was taken, and neither row nor release followed. */
  lemma LeakingCreate(st: State, d: State, sid: SessionID, row: Row)
    requires Inv(st) && IsFree(st.pool, row.0, row.1)
    requires d == st.(pool := st.pool[row := Some(sid)], psks := d.psks)
    ensures Crashed(d, map[row := Some(sid)])
  {
    assert Core(d, map[row := Some(sid)]).pool == st.pool - {row};
    FewerRowsRecoverable(st, Core(d, map[row := Some(sid)]), row);
  }

  /** A crash after the row's INSERT. */
  lemma CrashedHook(st: State, p: State, sid: SessionID, s: Session, psk: string, env: CreateEnv)
    requires Inv(st) && sid !in st.sessions && IsFree(st.pool, s.server, s.ip) && s.server in st.peers
             && !env.undo.deleteOk
    requires p == st.(pool := AllocateRow(st.pool, s.server, s.ip, sid), sessions := st.sessions[sid := s],
             psks := p.psks)
    ensures Recoverable(Hook(p, s, psk, env).0) && Recoverable(Delete(Hook(p, s, psk, env).0, sid, s, env.undo))
  {
    var h := Hook(p, s, psk, env).0;
    HookStores(p, s, psk, env);
    SamePlan(p, st, s);
    HalfCreatedIsRecoverable(st, h, sid, s);
    CrashedDelete(h, sid, env.undo);
  }

  /** What a creation cut short by a crash leaks: its address, exactly between its UPDATE and the row's INSERT. */
  function LeakOf(outcome: Outcome, sid: SessionID, server: ServerID, env: CreateEnv): Rows {
    if outcome == InsertFailed && !env.releaseOk then map[(server, env.pick.GetOr(0)) := Some(sid)] else map[]
  }

  lemma CrashedPrepare(st: State, sid: SessionID, user: UserID, server: ServerID, key: Option<WireGuard.Key>, now: int,
      env: CreateEnv)
    requires Inv(st) && sid !in st.sessions && Prepare(st, sid, user, server, key, now, env).1 != Created
    ensures var (p, outcome) := Prepare(st, sid, user, server, key, now, env);
            Crashed(p, LeakOf(outcome, sid, server, env)) && p.grants == st.grants
  {
    var (p, outcome) := Prepare(st, sid, user, server, key, now, env);
    PrepareStores(st, sid, user, server, key, now, env);
    if outcome == InsertFailed && !env.releaseOk {
      LeakingCreate(st, p, sid, (server, env.pick.value));
    } else {
      InvIsRecoverable(st);
      NoLeakIsCrashed(st);
      assert p == st;
    }
  }

  lemma CrashedAfterInsert(st: State, p: State, sid: SessionID, s: Session, psk: string, env: CreateEnv)
    requires Inv(st) && sid !in st.sessions && IsFree(st.pool, s.server, s.ip) && s.server in st.peers
             && !env.undo.deleteOk
    requires p == st.(pool := AllocateRow(st.pool, s.server, s.ip, sid), sessions := st.sessions[sid := s],
             psks := p.psks)
    ensures var (h, outcome) := Hook(p, s, psk, env);
            && outcome != InsertFailed
            && Crashed(h, map[]) && h.grants == st.grants
            && Crashed(Delete(h, sid, s, env.undo), map[]) && Delete(h, sid, s, env.undo).grants == st.grants
  {
    var (h, outcome) := Hook(p, s, psk, env);
    HookStores(p, s, psk, env);
    CrashedHook(st, p, sid, s, psk, env);
    NoLeakIsCrashed(h);
    NoLeakIsCrashed(Delete(h, sid, s, env.undo));
    UnhookStores(h, sid, s, env.undo);
  }

  lemma CrashedCreateFromInv(st: State, sid: SessionID, user: UserID, server: ServerID, key: Option<WireGuard.Key>,
      now: int, env: CreateEnv)
    requires Inv(st) && sid !in st.sessions && !env.undo.deleteOk
    ensures var (d, outcome) := Create(st, sid, user, server, key, now, env);
            Crashed(d, LeakOf(outcome, sid, server, env)) && d.grants == st.grants
  {
    var (p, prepared) := Prepare(st, sid, user, server, key, now, env);
    if prepared == Created {
      PrepareStores(st, sid, user, server, key, now, env);
      CrashedAfterInsert(st, p, sid, p.sessions[sid], env.psk.value, env);
    } else {
      CrashedPrepare(st, sid, user, server, key, now, env);
    }
  }

  lemma CoreOfBoth(d: State, lost: Rows, leak: Rows)
    requires Apart(d, lost) && leak.Keys <= d.pool.Keys
    ensures Core(WithLeak(d, lost), lost + leak) == Core(d, leak)
  {
    assert d.pool + lost - (lost + leak).Keys == d.pool - leak.Keys;
  }

  lemma BothApart(core: State, lost: Rows, leak: Rows)
    requires Apart(core, lost) && Apart(core, leak)
    ensures Apart(core, lost + leak)
  {
  }

  lemma BothInPool(pool: Rows, lost: Rows, leak: Rows)
    requires forall row :: row in leak ==> row in pool && pool[row] == leak[row]
    requires lost.Keys !! pool.Keys
    ensures lost.Keys !! leak.Keys && forall row ::
            row in lost + leak ==> row in pool + lost && (pool + lost)[row] == (lost + leak)[row]
  {
  }

  lemma LeaksAddUp(d: State, lost: Rows, leak: Rows, core: State)
    requires Crashed(d, leak) && Apart(d, lost) && core == Core(d, leak)
    ensures Crashed(WithLeak(d, lost), lost + leak) && lost.Keys !! leak.Keys
  {
    CoreOfBoth(d, lost, leak);
    assert Apart(core, lost);
    BothApart(core, lost, leak);
    BothInPool(d.pool, lost, leak);
  }

  /** A crash inside a creation, up to the DELETE of its rollback, whatever earlier crashes leaked. */
  lemma CrashedCreate(st: State, lost: Rows, sid: SessionID, user: UserID, server: ServerID,
      key: Option<WireGuard.Key>, now: int, env: CreateEnv)
    requires Inv(st) && Apart(st, lost) && sid !in st.sessions && !env.undo.deleteOk
    ensures var (d, outcome) := Create(WithLeak(st, lost), sid, user, server, key, now, env);
            var leak := LeakOf(outcome, sid, server, env);
            Crashed(d, lost + leak) && lost.Keys !! leak.Keys && d.grants == st.grants
  {
    var (d, outcome) := Create(st, sid, user, server, key, now, env);
    var leak := LeakOf(outcome, sid, server, env);
    CreateWithLeak(st, lost, sid, user, server, key, now, env);
    CreateKeepsApart(st, lost, sid, user, server, key, now, env);
    CrashedCreateFromInv(st, sid, user, server, key, now, env);
    LeaksAddUp(d, lost, leak, Core(d, leak));
  }
}
