/** Whole runs of session operations, from a restart on. */
module SessionRuns {
  import opened Options
  import opened Prefixes
  import opened Iptables
  import opened IPPool
  import opened Sessions
  import opened SessionFacts
  import opened SessionPeers
  import opened SessionTraffic
  import WireGuard

  /** envs(i) holds the outcomes of the i-th deletion. cleared: the start-up could empty the interfaces. */
  datatype Op =
    | CreateOp(sid: SessionID, user: UserID, server: ServerID, key: Option<WireGuard.Key>, now: int, env: CreateEnv)
    | EndOp(sel: Selection, rows: seq<SessionID>, envs: nat -> DeleteEnv)
    | KeepaliveOp(sid: SessionID, now: int)
    | GrantOp(server: ServerID, user: UserID, granted: seq<ResourceRow>)
    | RestartOp(rebooted: bool, cleared: bool, rows: seq<SessionID>, envs: nat -> DeleteEnv)

  /** Keys, interface and (after a reboot) chain of a fresh process; the database is as it was. */
  function FreshProcess(st: State, rebooted: bool, cleared: bool): State {
    st.(psks := map[],
        peers := if cleared then map s | s in st.peers :: map[] else st.peers,
        chain := if rebooted then [] else st.chain)
  }

  function Step(st: State, op: Op): State {
    match op
    case CreateOp(sid, user, server, key, now, env) => Create(st, sid, user, server, key, now, env).0
    case EndOp(sel, rows, envs) => EndFrom(st, rows, sel, 0, envs)
    case KeepaliveOp(sid, now) =>
      if sid in st.sessions then st.(sessions := st.sessions[sid := st.sessions[sid].(keepalive := now)]) else st
    case GrantOp(server, user, granted) => st.(grants := st.grants[(server, user) := granted])
    case RestartOp(rebooted, cleared, rows, envs) =>
      EndFrom(FreshProcess(st, rebooted, cleared), rows, Everything, 0, envs)
  }

  ghost predicate AllEnvsSucceed(rows: seq<SessionID>, envs: nat -> DeleteEnv) {
    forall i: nat :: i < |rows| ==> AllSucceed(envs(i))
  }

  ghost predicate ListsAll(rows: seq<SessionID>, st: State) {
    forall sid :: sid in st.sessions ==> sid in rows
  }

  /**
   * The hypotheses: fresh ids and keys, deletions whose statements succeed, grants that do not change under a live
   * session.
   */
  ghost predicate Legal(st: State, op: Op) {
    match op
    case CreateOp(sid, user, server, key, now, env) =>
      && sid !in st.sessions
      && (forall other :: other in st.sessions && st.sessions[other].server == server ==> st.sessions[other].key != key)
      && env.releaseOk && AllSucceed(env.undo)
    case EndOp(sel, rows, envs) => AllEnvsSucceed(rows, envs)
    case KeepaliveOp(sid, now) => true
    case GrantOp(server, user, granted) =>
      && (forall sid :: sid in st.sessions ==> !(st.sessions[sid].server == server && st.sessions[sid].user == user))
      && (forall i :: 0 <= i < |granted| ==> ValidRow(granted[i]))
    case RestartOp(rebooted, cleared, rows, envs) => AllEnvsSucceed(rows, envs) && ListsAll(rows, st)
  }

  ghost predicate AllKeysDistinct(st: State) {
    forall server :: KeysDistinct(st.sessions, server)
  }

  ghost predicate Good(st: State) {
    Inv(st) && ValidGrants(st) && AllKeysDistinct(st)
  }

  function Run(st: State, ops: seq<Op>): State
    decreases |ops|
  {
    if ops == [] then st else Run(Step(st, ops[0]), ops[1..])
  }

  ghost predicate LegalRun(st: State, ops: seq<Op>)
    decreases |ops|
  {
    ops != [] ==> Legal(st, ops[0]) && LegalRun(Step(st, ops[0]), ops[1..])
  }

  // ---- Ending sessions ---------------------------------------------------------------

  /**
   * What a restart can start from: every occupied address and every rule is of a session row, if not the other way
   * round.
   */
  ghost predicate Recoverable(st: State) {
    && OneServerPerAddress(st.pool)
    && (forall row :: row in st.pool && st.pool[row].Some? ==>
          var sid := st.pool[row].value; sid in st.sessions && row == (st.sessions[sid].server, st.sessions[sid].ip))
    && NoDup(st.chain)
    && (forall c :: c in st.chain ==> exists sid :: Owns(st, sid, c))
  }

  /** The pools of servers with separate subnets, before the first session. */
  lemma {:induction false} NewPoolsAreRecoverable(servers: seq<(ServerID, Prefix)>, st: State)
    requires SubnetsApart(servers) && st.pool == PoolsOf(servers) && st.chain == []
    ensures Recoverable(st)
  {
    PoolsAreApart(servers);
    forall row | row in st.pool ensures st.pool[row].None? {
      PoolsAreOfSubnets(servers, row);
    }
  }

  lemma DeleteKeepsRules(st: State, sid: SessionID, env: DeleteEnv, c: ChainRule)
    requires Recoverable(st) && sid in st.sessions && AllSucceed(env)
    requires c in Delete(st, sid, st.sessions[sid], env).chain
    ensures exists other :: Owns(Delete(st, sid, st.sessions[sid], env), other, c)
  {
    DeleteStores(st, sid, st.sessions[sid], env);
    AllSucceedIsClean(st, sid, env);
    var other :| Owns(st, other, c);
    OwnsAfterDelete(st, sid, env, other, c);
  }

  lemma DeleteKeepsRows(st: State, sid: SessionID, d: State)
    requires Recoverable(st) && sid in st.sessions
    requires d.sessions == st.sessions - {sid}
             && d.pool == ReleaseRow(st.pool, st.sessions[sid].server, st.sessions[sid].ip)
    requires NoDup(d.chain) && forall c :: c in d.chain ==> exists other :: Owns(d, other, c)
    ensures Recoverable(d)
  {
    assert d.pool.Keys == st.pool.Keys;
  }

  lemma DeleteStaysRecoverable(st: State, sid: SessionID, env: DeleteEnv)
    requires Recoverable(st) && sid in st.sessions && AllSucceed(env)
    ensures Recoverable(Delete(st, sid, st.sessions[sid], env))
  {
    var d := Delete(st, sid, st.sessions[sid], env);
    DeleteStores(st, sid, st.sessions[sid], env);
    WithoutNoDup(st.chain, Gone(st, st.sessions[sid], env));
    forall c | c in d.chain ensures exists other :: Owns(d, other, c) {
      DeleteKeepsRules(st, sid, env, c);
    }
    DeleteKeepsRows(st, sid, d);
  }

  lemma DeleteOne(st: State, sid: SessionID, env: DeleteEnv)
    requires Recoverable(st) && sid in st.sessions && AllSucceed(env)
    ensures var d := Delete(st, sid, st.sessions[sid], env);
            && Recoverable(d) && (Inv(st) ==> Inv(d))
            && d.sessions == st.sessions - {sid} && d.psks == st.psks - {sid} && d.grants == st.grants
              && d.peers.Keys == st.peers.Keys
  {
    DeleteStores(st, sid, st.sessions[sid], env);
    DeleteStaysRecoverable(st, sid, env);
    if Inv(st) {
      AllSucceedIsClean(st, sid, env);
      CleanDeleteKeepsInv(st, sid, env);
    }
  }

  ghost predicate Survives(st: State, rows: seq<SessionID>, sel: Selection, i: nat, sid: SessionID)
    requires i <= |rows|
  {
    sid in st.sessions && !(sid in rows[i..] && Picks(sel, st.peers.Keys, sid, st.sessions[sid]))
  }

  lemma {:induction false} EndFromKeeps(st: State, rows: seq<SessionID>, sel: Selection, i: nat, envs: nat -> DeleteEnv)
    requires i <= |rows| && Recoverable(st) && AllEnvsSucceed(rows, envs)
    ensures var e := EndFrom(st, rows, sel, i, envs);
            && Recoverable(e) && (Inv(st) ==> Inv(e))
            && e.grants == st.grants && e.peers.Keys == st.peers.Keys && e.psks.Keys <= st.psks.Keys
    decreases |rows| - i
  {
    if i < |rows| {
      var sid := rows[i];
      if sid in st.sessions && Picks(sel, st.peers.Keys, sid, st.sessions[sid]) {
        DeleteOne(st, sid, envs(i));
        EndFromKeeps(Delete(st, sid, st.sessions[sid], envs(i)), rows, sel, i + 1, envs);
      } else {
        EndFromKeeps(st, rows, sel, i + 1, envs);
      }
    }
  }

  /** A session survives exactly when it is not listed or not selected, and survivors keep their row. */
  ghost predicate SurvivorsOf(st: State, rows: seq<SessionID>, sel: Selection, i: nat, e: map<SessionID, Session>)
    requires i <= |rows|
  {
    forall sid :: (sid in e <==> Survives(st, rows, sel, i, sid)) && (sid in e ==> e[sid] == st.sessions[sid])
  }

  lemma SurvivorsStep(st: State, rows: seq<SessionID>, sel: Selection, i: nat, d: State, e: map<SessionID, Session>)
    requires i < |rows| && d.peers.Keys == st.peers.Keys
    requires d.sessions == if rows[i] in st.sessions && Picks(sel, st.peers.Keys, rows[i], st.sessions[rows[i]])
                           then st.sessions - {rows[i]} else st.sessions
    requires SurvivorsOf(d, rows, sel, i + 1, e)
    ensures SurvivorsOf(st, rows, sel, i, e)
  {
    forall sid ensures (sid in e <==> Survives(st, rows, sel, i, sid)) && (sid in e ==> e[sid] == st.sessions[sid]) {
    }
  }

  lemma {:induction false} EndFromSurvivors(st: State, rows: seq<SessionID>, sel: Selection, i: nat,
      envs: nat -> DeleteEnv)
    requires i <= |rows| && Recoverable(st) && AllEnvsSucceed(rows, envs)
    ensures SurvivorsOf(st, rows, sel, i, EndFrom(st, rows, sel, i, envs).sessions)
    decreases |rows| - i
  {
    if i < |rows| {
      var sid := rows[i];
      var d := st;
      if sid in st.sessions && Picks(sel, st.peers.Keys, sid, st.sessions[sid]) {
        DeleteOne(st, sid, envs(i));
        d := Delete(st, sid, st.sessions[sid], envs(i));
      }
      EndFromSurvivors(d, rows, sel, i + 1, envs);
      SurvivorsStep(st, rows, sel, i, d, EndFrom(st, rows, sel, i, envs).sessions);
    }
  }

  lemma {:induction false} EndFromFacts(st: State, rows: seq<SessionID>, sel: Selection, envs: nat -> DeleteEnv)
    requires Recoverable(st) && AllEnvsSucceed(rows, envs)
    ensures var e := EndFrom(st, rows, sel, 0, envs);
            && Recoverable(e) && (Inv(st) ==> Inv(e))
            && e.grants == st.grants && e.peers.Keys == st.peers.Keys && e.psks.Keys <= st.psks.Keys
            && SurvivorsOf(st, rows, sel, 0, e.sessions)
  {
    EndFromKeeps(st, rows, sel, 0, envs);
    EndFromSurvivors(st, rows, sel, 0, envs);
  }

  /** An operation that lists every session ends exactly the selected ones. */
  lemma EndsExactlySelected(st: State, rows: seq<SessionID>, sel: Selection, envs: nat -> DeleteEnv, sid: SessionID)
    requires Inv(st) && AllEnvsSucceed(rows, envs) && ListsAll(rows, st)
    ensures var e := Step(st, EndOp(sel, rows, envs));
            && Inv(e)
            && (sid in e.sessions <==> sid in st.sessions && !Picks(sel, st.peers.Keys, sid, st.sessions[sid]))
            && (sid in e.sessions ==> e.sessions[sid] == st.sessions[sid])
  {
    EndFromFacts(st, rows, sel, envs);
    assert rows[0..] == rows;
    assert Survives(st, rows, sel, 0, sid) <==> sid in st.sessions && !Picks(sel, st.peers.Keys, sid, st.sessions[sid]);
  }

  /** Nothing is left of any session. */
  ghost predicate Empty(st: State) {
    && st.sessions == map[] && st.psks == map[] && st.chain == []
    && (forall row :: row in st.pool ==> st.pool[row].None?)
  }

  lemma FreshProcessIsRecoverable(st: State, rebooted: bool, cleared: bool)
    requires Recoverable(st)
    ensures Recoverable(FreshProcess(st, rebooted, cleared))
  {
    var f := FreshProcess(st, rebooted, cleared);
    forall c | c in f.chain ensures exists sid :: Owns(f, sid, c) {
      var sid :| Owns(st, sid, c);
      assert Owns(f, sid, c);
    }
  }

  /** Starting up from a recoverable state ends every session of the previous process and leaves nothing of them. */
  lemma RestartEmpties(st: State, op: Op)
    requires op.RestartOp? && Recoverable(st) && Legal(st, op)
    ensures var e := Step(st, op);
            Empty(e) && Inv(e) && e.grants == st.grants
  {
    var f := FreshProcess(st, op.rebooted, op.cleared);
    FreshProcessIsRecoverable(st, op.rebooted, op.cleared);
    EverythingEnds(f, op.rows, op.envs);
    NoOwnersNoRules(Step(st, op));
  }

  lemma {:induction false} EverythingEnds(st: State, rows: seq<SessionID>, envs: nat -> DeleteEnv)
    requires Recoverable(st) && AllEnvsSucceed(rows, envs) && ListsAll(rows, st)
    ensures var e := EndFrom(st, rows, Everything, 0, envs);
            Recoverable(e) && e.sessions == map[] && e.grants == st.grants && e.psks.Keys <= st.psks.Keys
  {
    EndFromFacts(st, rows, Everything, envs);
    var e := EndFrom(st, rows, Everything, 0, envs);
    assert rows[0..] == rows;
    forall sid ensures sid !in e.sessions {
      assert !Survives(st, rows, Everything, 0, sid);
    }
  }

  lemma NonemptyHasMember(chain: seq<ChainRule>)
    ensures chain == [] || exists c :: c in chain
  {
    if chain != [] {
      assert chain[0] in chain;
    }
  }

  lemma NoOwnersNoRules(st: State)
    requires Recoverable(st) && st.sessions == map[] && st.psks == map[]
    ensures Empty(st) && Inv(st)
  {
    NonemptyHasMember(st.chain);
    assert forall sid, c :: !Owns(st, sid, c);
  }

  // ---- Every operation keeps the invariant ------------------------------------------------

  lemma InvIgnoresPeers(st: State, other: State)
    requires Inv(st) && other == st.(peers := other.peers)
    ensures Inv(other)
  {
    forall sid, c ensures Owns(st, sid, c) <==> Owns(other, sid, c) {
    }
  }

  lemma CreateIsGood(st: State, op: Op)
    requires Good(st) && op.CreateOp? && Legal(st, op)
    ensures Good(Step(st, op))
  {
    var (d, outcome) := Create(st, op.sid, op.user, op.server, op.key, op.now, op.env);
    if outcome == Created {
      CreatedIsAdded(st, op.sid, op.user, op.server, op.key, op.now, op.env);
      AddedKeepsInv(st, d, op.sid, d.sessions[op.sid]);
      AddedKeepsKeysDistinct(st, d, op);
    } else {
      FailedCreateStores(st, op.sid, op.user, op.server, op.key, op.now, op.env);
      CleanRollbackUndoesRules(st, Session(op.user, op.server, op.key, op.env.pick.GetOr(0), op.now, op.now), outcome,
        op.env);
      InvIgnoresPeers(st, d);
    }
  }

  lemma AddedKeepsKeysDistinct(st: State, d: State, op: Op)
    requires AllKeysDistinct(st) && op.CreateOp? && Legal(st, op)
    requires op.sid in d.sessions && d.sessions == st.sessions[op.sid := d.sessions[op.sid]]
    requires d.sessions[op.sid].server == op.server && d.sessions[op.sid].key == op.key
    ensures AllKeysDistinct(d)
  {
    forall server ensures KeysDistinct(d.sessions, server) {
      assert KeysDistinct(st.sessions, server);
    }
  }

  /** The same sessions with the same addresses, keys and plans. */
  ghost predicate SamePlans(st: State, other: State) {
    && st.sessions.Keys == other.sessions.Keys
    && forall sid :: sid in st.sessions ==>
         var a, b := st.sessions[sid], other.sessions[sid];
         a.server == b.server && a.ip == b.ip && a.key == b.key && PlanOf(st, a) == PlanOf(other, b)
  }

  lemma SamePlansSameOwners(st: State, other: State)
    requires SamePlans(st, other)
    ensures forall sid, c :: Owns(st, sid, c) <==> Owns(other, sid, c)
  {
    forall sid, c ensures Owns(st, sid, c) <==> Owns(other, sid, c) {
    }
  }

  lemma SamePlansSamePool(st: State, other: State)
    requires SamePlans(st, other) && PoolMatches(st.pool, st.sessions) && st.pool == other.pool
    ensures PoolMatches(other.pool, other.sessions)
  {
  }

  /** Changing nothing the plan of a session depends on changes no ownership. */
  lemma SamePlansSameInv(st: State, other: State)
    requires Inv(st) && SamePlans(st, other)
    requires st.pool == other.pool && st.psks == other.psks && st.chain == other.chain
    ensures Inv(other)
  {
    SamePlansSameOwners(st, other);
    SamePlansSamePool(st, other);
  }

  lemma SameKeysStayDistinct(st: State, other: State)
    requires AllKeysDistinct(st)
    requires forall sid :: sid in other.sessions ==>
               sid in st.sessions && other.sessions[sid].key == st.sessions[sid].key
                 && other.sessions[sid].server == st.sessions[sid].server
    ensures AllKeysDistinct(other)
  {
    forall server ensures KeysDistinct(other.sessions, server) {
      assert KeysDistinct(st.sessions, server);
    }
  }

  /** Session rows may differ in their times. */
  ghost predicate SameButTimes(a: map<SessionID, Session>, b: map<SessionID, Session>) {
    a.Keys == b.Keys && forall sid :: sid in a ==> b[sid] == a[sid].(created := b[sid].created,
      keepalive := b[sid].keepalive)
  }

  lemma TimesDoNotMatter(st: State, e: State)
    requires Good(st) && e == st.(sessions := e.sessions) && SameButTimes(st.sessions, e.sessions)
    ensures Good(e)
  {
    forall sid | sid in st.sessions
      ensures PlanOf(st, st.sessions[sid]) == PlanOf(e, e.sessions[sid]) {
    }
    SamePlansSameInv(st, e);
    SameKeysStayDistinct(st, e);
  }

  lemma KeepaliveIsGood(st: State, op: Op)
    requires Good(st) && op.KeepaliveOp?
    ensures Good(Step(st, op))
  {
    TimesDoNotMatter(st, Step(st, op));
  }

  lemma GrantIsGood(st: State, op: Op)
    requires Good(st) && op.GrantOp? && Legal(st, op)
    ensures Good(Step(st, op))
  {
    var e := Step(st, op);
    forall sid | sid in st.sessions
      ensures PlanOf(st, st.sessions[sid]) == PlanOf(e, e.sessions[sid]) {
    }
    SamePlansSameInv(st, e);
  }

  lemma EndIsGood(st: State, op: Op)
    requires Good(st) && op.EndOp? && Legal(st, op)
    ensures Good(Step(st, op))
  {
    EndFromFacts(st, op.rows, op.sel, op.envs);
    var e := Step(st, op);
    assert forall sid :: sid in e.sessions ==> Survives(st, op.rows, op.sel, 0, sid);
    SameKeysStayDistinct(st, e);
  }

  lemma StepIsGood(st: State, op: Op)
    requires Good(st) && Legal(st, op)
    ensures Good(Step(st, op))
  {
    match op
    case CreateOp(_, _, _, _, _, _) => CreateIsGood(st, op);
    case EndOp(_, _, _) => EndIsGood(st, op);
    case KeepaliveOp(_, _) => KeepaliveIsGood(st, op);
    case GrantOp(_, _, _) => GrantIsGood(st, op);
    case RestartOp(_, _, _, _) => RestartIsGood(st, op);
  }

  lemma RestartIsGood(st: State, op: Op)
    requires Recoverable(st) && ValidGrants(st) && op.RestartOp? && Legal(st, op)
    ensures Good(Step(st, op))
  {
    RestartEmpties(st, op);
  }

  lemma {:induction false} RunIsGood(st: State, ops: seq<Op>)
    requires Good(st) && LegalRun(st, ops)
    ensures Good(Run(st, ops))
    decreases |ops|
  {
    if ops != [] {
      StepIsGood(st, ops[0]);
      RunIsGood(Step(st, ops[0]), ops[1..]);
    }
  }

  lemma {:induction false} RunFromRestart(st: State, restart: Op, ops: seq<Op>)
    requires Recoverable(st) && ValidGrants(st) && restart.RestartOp? && LegalRun(st, [restart] + ops)
    ensures Good(Run(st, [restart] + ops))
  {
    assert ([restart] + ops)[1..] == ops;
    RestartIsGood(st, restart);
    RunIsGood(Step(st, restart), ops);
  }

  lemma GoodIsExact(now: State, p: Packet)
    requires Good(now)
    ensures PoolMatches(now.pool, now.sessions) && now.psks.Keys == now.sessions.Keys
    ensures Accepts(now.chain, p) <==> exists sid :: SessionAllows(now, sid, p)
  {
    ChainIsExact(now, p);
  }

  /** From any recoverable state, start-up and then any run: pool, keys and firewall agree with the session rows. */
  lemma {:induction false} RunsAreExact(st: State, restart: Op, ops: seq<Op>, p: Packet)
    requires Recoverable(st) && ValidGrants(st) && restart.RestartOp? && LegalRun(st, [restart] + ops)
    ensures var now := Run(st, [restart] + ops);
            && PoolMatches(now.pool, now.sessions)
            && now.psks.Keys == now.sessions.Keys
            && (Accepts(now.chain, p) <==> exists sid :: SessionAllows(now, sid, p))
  {
    RunFromRestart(st, restart, ops);
    GoodIsExact(Run(st, [restart] + ops), p);
  }

  /** In the same runs, a sync that succeeds leaves exactly the peers of the server's sessions. */
  lemma {:induction false} RunsSyncExactly(st: State, restart: Op, ops: seq<Op>, server: ServerID, env: SyncEnv)
    requires Recoverable(st) && ValidGrants(st) && restart.RestartOp? && LegalRun(st, [restart] + ops)
    requires SyncSucceeds(Run(st, [restart] + ops), server, env)
    ensures PeersExact(Sync(Run(st, [restart] + ops), server, env), server)
  {
    RunFromRestart(st, restart, ops);
    SyncMakesExact(Run(st, [restart] + ops), server, env);
  }

  // ---- Why grants must not change under a live session --------------------------------------

  /**
   * Deletion works from today's grants: a rule the session was given stays behind exactly when they no longer imply it.
   */
  lemma ChangedGrantsStrandRules(st: State, sid: SessionID, grants: map<(ServerID, UserID), seq<ResourceRow>>,
      env: DeleteEnv, c: ChainRule)
    requires Inv(st) && Owns(st, sid, c) && AllSucceed(env)
    ensures var changed := st.(grants := grants);
            c in Delete(changed, sid, st.sessions[sid], env).chain <==> !InPlan(PlanOf(changed, st.sessions[sid]), c)
  {
    var changed := st.(grants := grants);
    DeleteStores(changed, sid, st.sessions[sid], env);
    DeletedWhenAllSucceed(PlanOf(changed, st.sessions[sid]), env.ipt, c);
  }
}
