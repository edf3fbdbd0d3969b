/** What one operation on the stores keeps, and when a failed one leaves no trace. */
module SessionFacts {
  import opened Options
  import opened Iptables
  import opened IPPool
  import opened Sessions
  import WireGuard
  import Firewall

  // ---- The invariant -------------------------------------------------------------

  /** In-use rows and sessions are in bijection. */
  ghost predicate PoolMatches(pool: Rows, sessions: map<SessionID, Session>) {
    && (forall sid :: sid in sessions ==>
          (sessions[sid].server, sessions[sid].ip) in pool
            && pool[(sessions[sid].server, sessions[sid].ip)] == Some(sid))
    && (forall row :: row in pool && pool[row].Some? ==>
          pool[row].value in sessions && sessions[pool[row].value].server == row.0
            && sessions[pool[row].value].ip == row.1)
  }

  /** c is a rule the live session sid asks for. */
  ghost predicate Owns(st: State, sid: SessionID, c: ChainRule) {
    sid in st.sessions && InPlan(PlanOf(st, st.sessions[sid]), c)
  }

  /** What survives a restart: no rule without its session, no key without its session. */
  ghost predicate Durable(st: State) {
    && PoolMatches(st.pool, st.sessions)
    && OneServerPerAddress(st.pool)
    && NoDup(st.chain)
    && (forall c :: c in st.chain ==> exists sid :: Owns(st, sid, c))
    && st.psks.Keys <= st.sessions.Keys
    && (forall sid :: sid in st.sessions ==> st.sessions[sid].key.Some?)
  }

  /** Between operations: also no session without its rules or its key. */
  ghost predicate Inv(st: State) {
    && Durable(st)
    && (forall sid, c :: Owns(st, sid, c) ==> c in st.chain)
    && st.sessions.Keys <= st.psks.Keys
  }

  lemma OwnedHasAddress(st: State, sid: SessionID, c: ChainRule)
    requires Owns(st, sid, c)
    ensures c.src == st.sessions[sid].ip
  {
    var s := st.sessions[sid];
    Firewall.PlannedAreOfClient(s.ip, RulesOf(Granted(st.grants, s.server, s.user)), c);
  }

  // ---- Deleting a session ------------------------------------------------------------

  /** The chain rules a deletion really removes. */
  ghost function Gone(st: State, s: Session, env: DeleteEnv): set<ChainRule> {
    DeletedFrom(DeletePlan(st, s, env), 0, env.ipt)
  }

  /** Every statement of the deletion succeeds; what happens to the peers does not matter. */
  ghost predicate AllSucceed(env: DeleteEnv) {
    env.resourcesOk && env.releaseOk && env.deleteOk && forall m: nat, j: nat :: env.ipt(m, j)
  }

  /** The outcomes under which a deletion leaves nothing behind. */
  ghost predicate CleanDelete(st: State, sid: SessionID, env: DeleteEnv)
    requires sid in st.sessions
  {
    env.releaseOk && env.deleteOk && forall c :: Owns(st, sid, c) ==> c in Gone(st, st.sessions[sid], env)
  }

  lemma AllSucceedIsClean(st: State, sid: SessionID, env: DeleteEnv)
    requires sid in st.sessions && AllSucceed(env)
    ensures CleanDelete(st, sid, env)
  {
    forall c | Owns(st, sid, c) ensures c in Gone(st, st.sessions[sid], env) {
      DeletedWhenAllSucceed(PlanOf(st, st.sessions[sid]), env.ipt, c);
    }
  }

  /** The stores after a deletion, one by one. */
  lemma DeleteStores(st: State, sid: SessionID, s: Session, env: DeleteEnv)
    requires NoDup(st.chain)
    ensures var d := Delete(st, sid, s, env);
            && d.pool == (if env.releaseOk then ReleaseRow(st.pool, s.server, s.ip) else st.pool)
            && d.sessions == (if env.deleteOk then st.sessions - {sid} else st.sessions)
            && d.psks == st.psks - {sid}
            && d.chain == Without(st.chain, Gone(st, s, env))
            && d.grants == st.grants
            && d.peers.Keys == st.peers.Keys
  {
    RemoveIsWithout(st.chain, DeletePlan(st, s, env), 0, env.ipt);
    UnhookStores(st, sid, s, env);
  }

  lemma UnhookStores(st: State, sid: SessionID, s: Session, env: DeleteEnv)
    ensures var u := Unhook(st, sid, s, env);
            && u.pool == (if env.releaseOk then ReleaseRow(st.pool, s.server, s.ip) else st.pool)
            && u.sessions == st.sessions
            && u.psks == st.psks - {sid}
            && u.chain == RemoveFrom(st.chain, DeletePlan(st, s, env), 0, env.ipt)
            && u.grants == st.grants
            && u.peers.Keys == st.peers.Keys
  {
    var st1 := RemovePeer(st, s, env.removePeerOk);
    assert DeletePlan(st1, s, env) == DeletePlan(st, s, env);
  }

  lemma DeletePool(st: State, sid: SessionID)
    requires sid in st.sessions && PoolMatches(st.pool, st.sessions)
    ensures PoolMatches(ReleaseRow(st.pool, st.sessions[sid].server, st.sessions[sid].ip), st.sessions - {sid})
  {
  }

  lemma OwnsAfterDelete(st: State, sid: SessionID, env: DeleteEnv, other: SessionID, c: ChainRule)
    requires sid in st.sessions && NoDup(st.chain) && env.deleteOk
    ensures Owns(Delete(st, sid, st.sessions[sid], env), other, c) <==> other != sid && Owns(st, other, c)
  {
    DeleteStores(st, sid, st.sessions[sid], env);
  }

  /** Rules a deletion removes belong to the deleted session only. */
  lemma GoneIsOwned(st: State, sid: SessionID, env: DeleteEnv, c: ChainRule)
    requires sid in st.sessions && c in Gone(st, st.sessions[sid], env)
    ensures Owns(st, sid, c)
  {
    DeletedArePlanned(DeletePlan(st, st.sessions[sid], env), env.ipt, c);
  }

  lemma OwnersDiffer(st: State, a: SessionID, b: SessionID, c: ChainRule)
    requires PoolMatches(st.pool, st.sessions) && OneServerPerAddress(st.pool)
    requires Owns(st, a, c) && Owns(st, b, c)
    ensures a == b
  {
    OwnedHasAddress(st, a, c);
    OwnedHasAddress(st, b, c);
  }

  /** A clean deletion keeps what survives a restart. */
  lemma CleanDeleteKeepsDurable(st: State, sid: SessionID, env: DeleteEnv)
    requires Durable(st) && sid in st.sessions && CleanDelete(st, sid, env)
    ensures Durable(Delete(st, sid, st.sessions[sid], env))
  {
    var s := st.sessions[sid];
    var d := Delete(st, sid, s, env);
    DeleteStores(st, sid, s, env);
    DeletePool(st, sid);
    WithoutNoDup(st.chain, Gone(st, s, env));
    forall c | c in d.chain ensures exists other :: Owns(d, other, c) {
      var other :| Owns(st, other, c);
      OwnsAfterDelete(st, sid, env, other, c);
    }
  }

  /** A clean deletion keeps the invariant. */
  lemma CleanDeleteKeepsInv(st: State, sid: SessionID, env: DeleteEnv)
    requires Inv(st) && sid in st.sessions && CleanDelete(st, sid, env)
    ensures Inv(Delete(st, sid, st.sessions[sid], env))
  {
    var s := st.sessions[sid];
    var d := Delete(st, sid, s, env);
    CleanDeleteKeepsDurable(st, sid, env);
    DeleteStores(st, sid, s, env);
    forall other, c | Owns(d, other, c) ensures c in d.chain {
      OwnsAfterDelete(st, sid, env, other, c);
      if c in Gone(st, s, env) {
        GoneIsOwned(st, sid, env, c);
        OwnersDiffer(st, sid, other, c);
      }
    }
  }

  /**
   * A deletion keeps the invariant exactly when the release, the DELETE and the removal of each of the session's rules
   * succeed.
   */
  lemma DeleteKeepsInvIff(st: State, sid: SessionID, env: DeleteEnv)
    requires Inv(st) && sid in st.sessions
    ensures Inv(Delete(st, sid, st.sessions[sid], env)) <==> CleanDelete(st, sid, env)
  {
    var s := st.sessions[sid];
    var d := Delete(st, sid, s, env);
    DeleteStores(st, sid, s, env);
    if CleanDelete(st, sid, env) {
      CleanDeleteKeepsInv(st, sid, env);
    } else if Inv(d) {
      assert sid !in d.psks && sid !in d.sessions;
      assert env.deleteOk;
      assert env.releaseOk by {
        assert st.pool[(s.server, s.ip)] == Some(sid);
      }
      var c :| Owns(st, sid, c) && c !in Gone(st, s, env);
      assert c in d.chain;
      var other :| Owns(d, other, c);
      OwnsAfterDelete(st, sid, env, other, c);
      OwnersDiffer(st, sid, other, c);
    }
  }

  // ---- Creating a session ----------------------------------------------------------------

  lemma AllocatePool(pool: Rows, sessions: map<SessionID, Session>, sid: SessionID, s: Session)
    requires PoolMatches(pool, sessions) && sid !in sessions && IsFree(pool, s.server, s.ip)
    ensures PoolMatches(AllocateRow(pool, s.server, s.ip, sid), sessions[sid := s])
  {
  }

  /** The stores of a prepared session. */
  lemma PrepareStores(st: State, sid: SessionID, user: UserID, server: ServerID, key: Option<WireGuard.Key>, now: int,
      env: CreateEnv)
    requires sid !in st.sessions && sid !in st.psks
    ensures var (p, outcome) := Prepare(st, sid, user, server, key, now, env);
            && p.chain == st.chain && p.peers == st.peers && p.grants == st.grants
            && (outcome == Created ==>
                  && server in st.peers && env.psk.Some? && env.pick.Some? && IsFree(st.pool, server, env.pick.value)
                  && var s := Session(user, server, key, env.pick.value, now, now);
                  && p.pool == AllocateRow(st.pool, server, s.ip, sid)
                  && p.sessions == st.sessions[sid := s]
                  && p.psks == st.psks[sid := env.psk.value])
            && (outcome != Created ==>
                  && outcome in {NoServer, NoPsk, NoAddress, InsertFailed}
                  && p.sessions == st.sessions && p.psks == st.psks
                  && (p.pool == st.pool <==> outcome != InsertFailed || env.releaseOk))
  {
    if env.psk.Some? {
      assert st.psks[sid := env.psk.value] - {sid} == st.psks;
      if env.pick.Some? && IsFree(st.pool, server, env.pick.value) {
        FreeAgain(st.pool, server, env.pick.value, sid);
      }
    }
  }

  lemma FreeAgain(pool: Rows, server: ServerID, ip: nat, sid: SessionID)
    requires IsFree(pool, server, ip)
    ensures ReleaseRow(AllocateRow(pool, server, ip, sid), server, ip) == pool
    ensures AllocateRow(pool, server, ip, sid) != pool
  {
    assert AllocateRow(pool, server, ip, sid)[(server, ip)] == Some(sid);
  }

  /** Only rules of the plan were added to the chain; all of them when the outcome is success. */
  ghost predicate RulesAdded(before: seq<ChainRule>, after: seq<ChainRule>, plan: Plan, outcome: Outcome,
      env: CreateEnv) {
    && after == (if outcome in {PeerFailed, ResourcesFailed} then before else AddFrom(before, plan, 0, env.ipt).0)
    && before <= after
    && (NoDup(before) ==> NoDup(after))
    && (forall k :: |before| <= k < |after| ==> InPlan(plan, after[k]))
    && (outcome == Created ==> forall c :: InPlan(plan, c) ==> c in after)
  }

  lemma NothingAdded(chain: seq<ChainRule>, plan: Plan, outcome: Outcome, env: CreateEnv)
    requires outcome in {PeerFailed, ResourcesFailed}
    ensures RulesAdded(chain, chain, plan, outcome, env)
  {
  }

  lemma {:induction false} AddedToChain(chain: seq<ChainRule>, plan: Plan, outcome: Outcome, env: CreateEnv)
    requires outcome in {RulesFailed, EndpointsFailed, Created}
             && (outcome == Created ==> AddFrom(chain, plan, 0, env.ipt).1)
    ensures RulesAdded(chain, AddFrom(chain, plan, 0, env.ipt).0, plan, outcome, env)
  {
    AddFacts(chain, plan, 0, env.ipt);
  }

  lemma HookRulesChain(st: State, s: Session, env: CreateEnv, plan: Plan)
    requires plan == PlanOf(st, s)
    ensures var (h, outcome) := HookRules(st, s, env);
            RulesAdded(st.chain, h.chain, plan, outcome, env)
              && outcome in {Created, ResourcesFailed, RulesFailed, EndpointsFailed}
  {
    if env.resourcesOk {
      AddedToChain(st.chain, plan, HookRules(st, s, env).1, env);
    } else {
      NothingAdded(st.chain, plan, ResourcesFailed, env);
    }
  }

  lemma HookKeeps(st: State, s: Session, psk: string, env: CreateEnv)
    requires s.server in st.peers
    ensures var h := Hook(st, s, psk, env).0;
            h == st.(peers := h.peers, chain := h.chain) && h.peers.Keys == st.peers.Keys
  {
  }

  lemma HookChain(st: State, s: Session, psk: string, env: CreateEnv, plan: Plan)
    requires s.server in st.peers && plan == PlanOf(st, s)
    ensures var (h, outcome) := Hook(st, s, psk, env);
            && RulesAdded(st.chain, h.chain, plan, outcome, env)
            && outcome in {Created, PeerFailed, ResourcesFailed, RulesFailed, EndpointsFailed}
              && (outcome == Created ==> s.key.Some?)
  {
    if s.key.Some? && env.addPeerOk {
      var st1 := HookPeers(st, s, psk, env);
      SamePlan(st1, st, s);
      HookRulesChain(st1, s, env, plan);
    } else {
      NothingAdded(st.chain, plan, PeerFailed, env);
    }
  }

  lemma HookStores(st: State, s: Session, psk: string, env: CreateEnv)
    requires s.server in st.peers
    ensures var (h, outcome) := Hook(st, s, psk, env);
            && h.pool == st.pool && h.sessions == st.sessions && h.psks == st.psks && h.grants == st.grants
            && h.peers.Keys == st.peers.Keys
            && RulesAdded(st.chain, h.chain, PlanOf(st, s), outcome, env)
            && outcome in {Created, PeerFailed, ResourcesFailed, RulesFailed, EndpointsFailed}
              && (outcome == Created ==> s.key.Some?)
  {
    HookKeeps(st, s, psk, env);
    HookChain(st, s, psk, env, PlanOf(st, s));
  }

  lemma SamePlan(p: State, st: State, s: Session)
    requires p.grants == st.grants
    ensures PlanOf(p, s) == PlanOf(st, s)
  {
  }

  lemma OwnsAfterCreate(st: State, after: State, sid: SessionID, s: Session, other: SessionID, c: ChainRule)
    requires sid !in st.sessions && after.sessions == st.sessions[sid := s] && after.grants == st.grants
    ensures Owns(after, other, c) <==> (other == sid && InPlan(PlanOf(st, s), c)) || Owns(st, other, c)
  {
  }

  /** The stores with session s, its address and some of its rules added. */
  ghost predicate PartlyAdded(st: State, after: State, sid: SessionID, s: Session) {
    && sid !in st.sessions && IsFree(st.pool, s.server, s.ip)
    && after.pool == AllocateRow(st.pool, s.server, s.ip, sid)
    && after.sessions == st.sessions[sid := s]
    && after.grants == st.grants
    && st.chain <= after.chain && NoDup(after.chain)
    && (forall k :: |st.chain| <= k < |after.chain| ==> InPlan(PlanOf(st, s), after.chain[k]))
  }

  /** The stores with session s, its address, its key and exactly its rules added. */
  ghost predicate Added(st: State, after: State, sid: SessionID, s: Session) {
    && PartlyAdded(st, after, sid, s)
    && s.key.Some? && after.psks.Keys == st.psks.Keys + {sid}
    && (forall c :: InPlan(PlanOf(st, s), c) ==> c in after.chain)
  }

  lemma AddedRuleIsOwned(st: State, after: State, sid: SessionID, s: Session, c: ChainRule)
    requires Durable(st) && PartlyAdded(st, after, sid, s) && c in after.chain
    ensures exists other :: Owns(after, other, c)
  {
    var k :| 0 <= k < |after.chain| && after.chain[k] == c;
    if k < |st.chain| {
      assert c in st.chain;
      var other :| Owns(st, other, c);
      OwnsAfterCreate(st, after, sid, s, other, c);
    } else {
      OwnsAfterCreate(st, after, sid, s, sid, c);
    }
  }

  lemma AddedKeepsPool(st: State, after: State, sid: SessionID, s: Session)
    requires Inv(st) && PartlyAdded(st, after, sid, s)
    ensures PoolMatches(after.pool, after.sessions) && OneServerPerAddress(after.pool)
  {
    AllocatePool(st.pool, st.sessions, sid, s);
    assert after.pool.Keys == st.pool.Keys;
  }

  lemma AddedKeepsDurable(st: State, after: State, sid: SessionID, s: Session)
    requires Inv(st) && Added(st, after, sid, s)
    ensures Durable(after)
  {
    AddedKeepsPool(st, after, sid, s);
    forall c | c in after.chain ensures exists other :: Owns(after, other, c) {
      AddedRuleIsOwned(st, after, sid, s, c);
    }
  }

  lemma AddedOwnersHaveRules(st: State, after: State, sid: SessionID, s: Session)
    requires Inv(st) && Added(st, after, sid, s)
    ensures forall other, c :: Owns(after, other, c) ==> c in after.chain
  {
    forall other, c | Owns(after, other, c) ensures c in after.chain {
      OwnsAfterCreate(st, after, sid, s, other, c);
      if other != sid {
        assert c in st.chain;
      }
    }
  }

  lemma AddedKeepsInv(st: State, after: State, sid: SessionID, s: Session)
    requires Inv(st) && Added(st, after, sid, s)
    ensures Inv(after)
  {
    AddedKeepsDurable(st, after, sid, s);
    AddedOwnersHaveRules(st, after, sid, s);
  }

  lemma CreatedIsAdded(st: State, sid: SessionID, user: UserID, server: ServerID, key: Option<WireGuard.Key>, now: int,
      env: CreateEnv)
    requires Inv(st) && sid !in st.sessions
    requires Create(st, sid, user, server, key, now, env).1 == Created
    ensures var after := Create(st, sid, user, server, key, now, env).0;
            && sid in after.sessions && Added(st, after, sid, after.sessions[sid])
            && after.peers.Keys == st.peers.Keys
            && after.sessions[sid] == Session(user, server, key, after.sessions[sid].ip, now, now)
  {
    PrepareStores(st, sid, user, server, key, now, env);
    var p := Prepare(st, sid, user, server, key, now, env).0;
    var s := p.sessions[sid];
    HookStores(p, s, env.psk.value, env);
    assert PlanOf(p, s) == PlanOf(st, s);
  }

  /** A successful creation keeps the invariant, whatever happens to the peers. */
  lemma CreateKeepsInv(st: State, sid: SessionID, user: UserID, server: ServerID, key: Option<WireGuard.Key>, now: int,
      env: CreateEnv)
    requires Inv(st) && sid !in st.sessions
    requires Create(st, sid, user, server, key, now, env).1 == Created
    ensures Inv(Create(st, sid, user, server, key, now, env).0)
  {
    CreatedIsAdded(st, sid, user, server, key, now, env);
    var after := Create(st, sid, user, server, key, now, env).0;
    AddedKeepsInv(st, after, sid, after.sessions[sid]);
  }

  // ---- A creation that fails -----------------------------------------------------------------

  /** The rules a failed creation had put in the chain before it gave up. */
  ghost predicate Appended(st: State, s: Session, env: CreateEnv, c: ChainRule) {
    c in AddFrom(st.chain, PlanOf(st, s), 0, env.ipt).0 && c !in st.chain
  }

  ghost predicate PoolUndone(outcome: Outcome, env: CreateEnv) {
    match outcome
    case NoServer | NoPsk | NoAddress => true
    case InsertFailed => env.releaseOk
    case _ => env.undo.releaseOk
  }

  ghost predicate RowUndone(outcome: Outcome, env: CreateEnv) {
    outcome in {NoServer, NoPsk, NoAddress, InsertFailed} || env.undo.deleteOk
  }

  ghost predicate RulesUndone(st: State, s: Session, outcome: Outcome, env: CreateEnv) {
    outcome in {RulesFailed, EndpointsFailed} ==>
      forall c :: Appended(st, s, env, c) ==> c in Gone(st, s, env.undo)
  }

  /** What after has beyond before is gone. */
  ghost predicate NewGone(before: seq<ChainRule>, after: seq<ChainRule>, gone: set<ChainRule>) {
    forall c :: c in after && c !in before ==> c in gone
  }

  lemma {:induction false} WithoutAllIff(chain: seq<ChainRule>, gone: set<ChainRule>)
    ensures Without(chain, gone) == [] <==> forall c :: c in chain ==> c in gone
  {
    var left := Without(chain, gone);
    if left != [] {
      assert left[0] in left;
    }
  }

  lemma BeyondPrefix(before: seq<ChainRule>, tail: seq<ChainRule>, after: seq<ChainRule>, c: ChainRule)
    requires after == before + tail && NoDup(after)
    ensures c in tail <==> c in after && c !in before
  {
    if c in tail {
      var k :| 0 <= k < |tail| && tail[k] == c;
      assert after[|before| + k] == c;
      assert forall i :: 0 <= i < |before| ==> after[i] == before[i];
    }
    if c in after && c !in before {
      var k :| 0 <= k < |after| && after[k] == c;
      assert tail[k - |before|] == c;
    }
  }

  lemma {:induction false} RemovingLeavesPrefix(before: seq<ChainRule>, after: seq<ChainRule>, gone: set<ChainRule>)
    requires before <= after && NoDup(after)
    requires forall c :: c in before ==> c !in gone
    ensures Without(after, gone) == before <==> NewGone(before, after, gone)
  {
    var tail := after[|before|..];
    assert after == before + tail;
    WithoutConcat(before, tail, gone);
    WithoutNothing(before, gone);
    WithoutAllIff(tail, gone);
    forall c ensures c in tail <==> c in after && c !in before {
      BeyondPrefix(before, tail, after, c);
    }
  }

  lemma AppendedRulesAreNew(st: State, s: Session, env: DeleteEnv, c: ChainRule)
    requires Durable(st) && IsFree(st.pool, s.server, s.ip) && c in st.chain
    ensures c !in Gone(st, s, env)
  {
    var other :| Owns(st, other, c);
    OwnedHasAddress(st, other, c);
    assert c.src != s.ip by {
      assert (st.sessions[other].server, st.sessions[other].ip) != (s.server, s.ip);
    }
    if c in Gone(st, s, env) {
      DeletedArePlanned(DeletePlan(st, s, env), env.ipt, c);
      Firewall.PlannedAreOfClient(s.ip, RulesOf(Granted(st.grants, s.server, s.user)), c);
    }
  }

  lemma RollbackChain(st: State, h: State, s: Session, env: DeleteEnv)
    requires Durable(st) && IsFree(st.pool, s.server, s.ip)
    requires h.grants == st.grants && st.chain <= h.chain && NoDup(h.chain)
    ensures Without(h.chain, Gone(h, s, env)) == st.chain <==> NewGone(st.chain, h.chain, Gone(st, s, env))
  {
    assert DeletePlan(h, s, env) == DeletePlan(st, s, env);
    forall c | c in st.chain ensures c !in Gone(st, s, env) {
      AppendedRulesAreNew(st, s, env, c);
    }
    RemovingLeavesPrefix(st.chain, h.chain, Gone(st, s, env));
  }

  lemma DropNew<K, V>(m: map<K, V>, k: K, v: V)
    requires k !in m
    ensures m[k := v] - {k} == m && m[k := v] != m
  {
    assert k in m[k := v];
  }

  /** The stores after the rollback of a session whose row was inserted and whose rules were being added. */
  lemma RollbackStores(st: State, h: State, sid: SessionID, s: Session, psk: string, env: DeleteEnv)
    requires Durable(st) && sid !in st.sessions && sid !in st.psks && IsFree(st.pool, s.server, s.ip)
    requires h.pool == AllocateRow(st.pool, s.server, s.ip, sid)
    requires h.sessions == st.sessions[sid := s] && h.psks == st.psks[sid := psk]
    requires h.grants == st.grants && st.chain <= h.chain && NoDup(h.chain)
    ensures var d := Delete(h, sid, s, env);
            && d.psks == st.psks && d.grants == st.grants && d.peers.Keys == h.peers.Keys
            && (d.pool == st.pool <==> env.releaseOk)
            && (d.sessions == st.sessions <==> env.deleteOk)
            && (d.chain == st.chain <==> NewGone(st.chain, h.chain, Gone(st, s, env)))
  {
    DeleteStores(h, sid, s, env);
    FreeAgain(st.pool, s.server, s.ip, sid);
    DropNew(st.psks, sid, psk);
    DropNew(st.sessions, sid, s);
    RollbackChain(st, h, s, env);
  }

  /** The undone stores of a hook that failed, told from the outcome. */
  ghost predicate Undone(st: State, d: State, outcome: Outcome, env: CreateEnv, rulesUndone: bool) {
    && d.psks == st.psks && d.grants == st.grants
    && (d.pool == st.pool <==> PoolUndone(outcome, env))
    && (d.sessions == st.sessions <==> RowUndone(outcome, env))
    && (d.chain == st.chain <==> rulesUndone)
  }

  lemma RulesUndoneIff(st: State, s: Session, chain: seq<ChainRule>, outcome: Outcome, env: CreateEnv)
    requires outcome in {PeerFailed, ResourcesFailed, RulesFailed, EndpointsFailed}
    requires chain == (if outcome in {PeerFailed, ResourcesFailed} then st.chain
             else AddFrom(st.chain, PlanOf(st, s), 0, env.ipt).0)
    ensures RulesUndone(st, s, outcome, env) <==> NewGone(st.chain, chain, Gone(st, s, env.undo))
  {
    if outcome in {RulesFailed, EndpointsFailed} {
      assert forall c :: Appended(st, s, env, c) <==> c in chain && c !in st.chain;
    }
  }

  lemma UndoneByOutcome(st: State, d: State, gone: bool, outcome: Outcome, env: CreateEnv)
    requires outcome in {PeerFailed, ResourcesFailed, RulesFailed, EndpointsFailed}
    requires d.psks == st.psks && d.grants == st.grants
    requires d.pool == st.pool <==> env.undo.releaseOk
    requires d.sessions == st.sessions <==> env.undo.deleteOk
    requires d.chain == st.chain <==> gone
    ensures Undone(st, d, outcome, env, gone)
  {
  }

  lemma HookedOffStores(st: State, p: State, sid: SessionID, s: Session, psk: string, env: CreateEnv)
    requires Durable(st) && sid !in st.sessions && sid !in st.psks && IsFree(st.pool, s.server, s.ip)
    requires s.server in st.peers
    requires p == st.(pool := AllocateRow(st.pool, s.server, s.ip, sid), sessions := st.sessions[sid := s],
             psks := st.psks[sid := psk])
    requires Hook(p, s, psk, env).1 != Created
    ensures var (h, outcome) := Hook(p, s, psk, env);
            Undone(st, Delete(h, sid, s, env.undo), outcome, env, RulesUndone(st, s, outcome, env))
  {
    var (h, outcome) := Hook(p, s, psk, env);
    HookStores(p, s, psk, env);
    SamePlan(p, st, s);
    RollbackStores(st, h, sid, s, psk, env.undo);
    RulesUndoneIff(st, s, h.chain, outcome, env);
    UndoneByOutcome(st, Delete(h, sid, s, env.undo), NewGone(st.chain, h.chain, Gone(st, s, env.undo)), outcome, env);
  }

  /** Store by store, when a creation that fails leaves no trace. */
  lemma FailedCreateStores(st: State, sid: SessionID, user: UserID, server: ServerID, key: Option<WireGuard.Key>,
      now: int, env: CreateEnv)
    requires Durable(st) && sid !in st.sessions && sid !in st.psks
    requires Create(st, sid, user, server, key, now, env).1 != Created
    ensures var (d, outcome) := Create(st, sid, user, server, key, now, env);
            && d.psks == st.psks && d.grants == st.grants
            && (d.pool == st.pool <==> PoolUndone(outcome, env))
            && (d.sessions == st.sessions <==> RowUndone(outcome, env))
            && (d.chain == st.chain <==>
                  RulesUndone(st, Session(user, server, key, env.pick.GetOr(0), now, now), outcome, env))
  {
    PrepareStores(st, sid, user, server, key, now, env);
    var (p, prepared) := Prepare(st, sid, user, server, key, now, env);
    if prepared == Created {
      HookedOffStores(st, p, sid, p.sessions[sid], env.psk.value, env);
    }
  }
}
