/** The server over many lives, each from a start-up to a crash. */
module SessionLives {
  import opened Options
  import opened Iptables
  import opened IPPool
  import opened Sessions
  import opened SessionFacts
  import opened SessionTraffic
  import opened SessionRuns
  import opened SessionPeers
  import opened SessionPeerRuns
  import opened SessionCrashes
  import WireGuard

  // ---- Sums of maps -------------------------------------------------------------------

  lemma SumsWithNothing<K, V>(m: map<K, V>)
    ensures m + map[] == m && map[] + m == m
  {
  }

  lemma SumSize<K, V>(a: map<K, V>, b: map<K, V>)
    requires a.Keys !! b.Keys
    ensures |a + b| == |a| + |b|
  {
    assert (a + b).Keys == a.Keys + b.Keys;
    assert |(a + b).Keys| == |a.Keys| + |b.Keys|;
  }

  // ---- One life ------------------------------------------------------------------------

  /** Where a life ends: between two operations, or with the statements of one operation done up to some point. */
  datatype Crash =
    | Between
    | InCreate(sid: SessionID, user: UserID, server: ServerID, key: Option<WireGuard.Key>, now: int, cut: CreateEnv)
    | InDelete(sid: SessionID, part: DeleteEnv)

  /** A start-up and the operations after it, or a start-up that got as far as the first rows. */
  datatype Life =
    | Served(restart: Op, ops: seq<Op>, crash: Crash)
    | StartupCut(rebooted: bool, cleared: bool, rows: seq<SessionID>, envs: nat -> DeleteEnv, crash: Crash)

  /** The state the crash finds. */
  function Before(st: State, life: Life): State {
    match life
    case Served(restart, ops, _) => Run(st, [restart] + ops)
    case StartupCut(rebooted, cleared, rows, envs, _) =>
      EndFrom(FreshProcess(st, rebooted, cleared), rows, Everything, 0, envs)
  }

  function Cut(st: State, crash: Crash): State {
    match crash
    case Between => st
    case InCreate(sid, user, server, key, now, cut) => Create(st, sid, user, server, key, now, cut).0
    case InDelete(sid, part) => if sid in st.sessions then Delete(st, sid, st.sessions[sid], part) else st
  }

  function Live(st: State, life: Life): State {
    Cut(Before(st, life), life.crash)
  }

  /** A cut operation has not reached its DELETE. */
  ghost predicate LegalCut(st: State, crash: Crash) {
    match crash
    case Between => true
    case InCreate(sid, _, _, _, _, cut) => sid !in st.sessions && !cut.undo.deleteOk
    case InDelete(_, part) => !part.deleteOk
  }

  ghost predicate LegalLife(st: State, life: Life) {
    && LegalCut(Before(st, life), life.crash)
    && match life
       case Served(restart, ops, _) => restart.RestartOp? && LegalRun(st, [restart] + ops)
       case StartupCut(_, _, rows, envs, crash) => AllEnvsSucceed(rows, envs) && !crash.InCreate?
  }

  /** What the crash leaks. */
  function CutLeak(st: State, crash: Crash): Rows {
    match crash
    case InCreate(sid, user, server, key, now, cut) =>
      LeakOf(Create(st, sid, user, server, key, now, cut).1, sid, server, cut)
    case _ => map[]
  }

  lemma LeaksOneAtMost(st: State, crash: Crash)
    ensures |CutLeak(st, crash)| == if CutLeak(st, crash) == map[] then 0 else 1
  {
  }

  /** The cut adds its leak to what was leaked before, and touches no grant. */
  ghost predicate Cuts(st: State, crash: Crash, before: Rows, grants: map<(ServerID, UserID), seq<ResourceRow>>) {
    var leaked := CutLeak(st, crash);
    before.Keys !! leaked.Keys && Crashed(Cut(st, crash), before + leaked) && Cut(st, crash).grants == grants
  }

  lemma CutFromInv(st: State, leak: Rows, crash: Crash)
    requires Inv(st) && Apart(st, leak) && LegalCut(st, crash)
    ensures Cuts(WithLeak(st, leak), crash, leak, st.grants)
  {
    match crash
    case InCreate(sid, user, server, key, now, cut) => CrashedCreate(st, leak, sid, user, server, key, now, cut);
    case _ =>
      InvIsRecoverable(st);
      CutFromRecoverable(st, leak, crash);
  }

  lemma NoLeakCuts(st: State, crash: Crash, leak: Rows, e: State)
    requires CutLeak(st, crash) == map[] && Cut(st, crash) == e && Crashed(e, leak)
    ensures Cuts(st, crash, leak, e.grants)
  {
    SumsWithNothing(leak);
  }

  lemma CutDelete(st: State, leak: Rows, sid: SessionID, part: DeleteEnv)
    requires Recoverable(st) && Apart(st, leak) && !part.deleteOk && sid in st.sessions
    ensures var d := Delete(WithLeak(st, leak), sid, st.sessions[sid], part);
            Crashed(d, leak) && d.grants == st.grants
  {
    var s := st.sessions[sid];
    DeleteStores(st, sid, s, part);
    DeleteWithLeak(st, leak, sid, s, part);
    DeleteKeepsApart(st, leak, sid, s, part);
    CrashedDelete(st, sid, part);
    WithLeakIsCrashed(Delete(st, sid, s, part), leak);
  }

  lemma CutFromRecoverable(st: State, leak: Rows, crash: Crash)
    requires Recoverable(st) && Apart(st, leak) && LegalCut(st, crash) && !crash.InCreate?
    ensures Cuts(WithLeak(st, leak), crash, leak, st.grants)
  {
    var w := WithLeak(st, leak);
    if crash.InDelete? && crash.sid in st.sessions {
      CutDelete(st, leak, crash.sid, crash.part);
      NoLeakCuts(w, crash, leak, Delete(w, crash.sid, st.sessions[crash.sid], crash.part));
    } else {
      WithLeakIsCrashed(st, leak);
      NoLeakCuts(w, crash, leak, w);
    }
  }

  lemma ServedLife(st: State, leak: Rows, life: Life)
    requires Crashed(st, leak) && ValidGrants(st) && life.Served? && LegalLife(st, life)
    ensures Cuts(Before(st, life), life.crash, leak, Before(st, life).grants) && ValidGrants(Before(st, life))
  {
    var core, ops := Core(st, leak), [life.restart] + life.ops;
    CoreWithLeak(st, leak);
    RunWithLeak(core, leak, ops);
    RunFromRestart(core, life.restart, life.ops);
    CutFromInv(Run(core, ops), leak, life.crash);
  }

  lemma StartupWithLeak(core: State, leak: Rows, life: Life, e: State)
    requires Recoverable(core) && Apart(core, leak) && life.StartupCut? && AllEnvsSucceed(life.rows, life.envs)
    requires e == EndFrom(FreshProcess(core, life.rebooted, life.cleared), life.rows, Everything, 0, life.envs)
    ensures Before(WithLeak(core, leak), life) == WithLeak(e, leak) && Recoverable(e) && Apart(e, leak)
            && e.grants == core.grants
  {
    var f := FreshProcess(core, life.rebooted, life.cleared);
    assert FreshProcess(WithLeak(core, leak), life.rebooted, life.cleared) == WithLeak(f, leak);
    EndWithLeak(f, leak, life.rows, Everything, 0, life.envs);
    EndKeepsApart(f, leak, life.rows, Everything, 0, life.envs);
    FreshProcessIsRecoverable(core, life.rebooted, life.cleared);
    EndFromKeeps(f, life.rows, Everything, 0, life.envs);
  }

  lemma CutStartup(st: State, leak: Rows, life: Life)
    requires Crashed(st, leak) && ValidGrants(st) && life.StartupCut? && LegalLife(st, life)
    ensures Cuts(Before(st, life), life.crash, leak, Before(st, life).grants) && ValidGrants(Before(st, life))
  {
    var core := Core(st, leak);
    var e := EndFrom(FreshProcess(core, life.rebooted, life.cleared), life.rows, Everything, 0, life.envs);
    CoreWithLeak(st, leak);
    StartupWithLeak(core, leak, life, e);
    CutFromRecoverable(e, leak, life.crash);
  }

  /** A life leaves the server recoverable but for the addresses leaked before, and for the one its crash may leak. */
  lemma LifeStaysCrashed(st: State, leak: Rows, life: Life)
    requires Crashed(st, leak) && ValidGrants(st) && LegalLife(st, life)
    ensures var leaked := CutLeak(Before(st, life), life.crash);
            leak.Keys !! leaked.Keys && Crashed(Live(st, life), leak + leaked) && ValidGrants(Live(st, life))
  {
    match life
    case Served(_, _, _) => ServedLife(st, leak, life);
    case StartupCut(_, _, _, _, _) => CutStartup(st, leak, life);
  }

  // ---- Any number of lives -------------------------------------------------------------

  function LiveAll(st: State, lives: seq<Life>): State
    decreases |lives|
  {
    if lives == [] then st else LiveAll(Live(st, lives[0]), lives[1..])
  }

  ghost predicate LegalLives(st: State, lives: seq<Life>)
    decreases |lives|
  {
    lives != [] ==> LegalLife(st, lives[0]) && LegalLives(Live(st, lives[0]), lives[1..])
  }

  /** The leaked addresses at the end of the lives. */
  function LeakedBy(st: State, leak: Rows, lives: seq<Life>): Rows
    decreases |lives|
  {
    if lives == [] then leak
    else LeakedBy(Live(st, lives[0]), leak + CutLeak(Before(st, lives[0]), lives[0].crash), lives[1..])
  }

  /** How many crashes fell between a creation's UPDATE of the pool and the INSERT of its row. */
  function LeakingCrashes(st: State, lives: seq<Life>): nat
    decreases |lives|
  {
    if lives == [] then 0
    else
      (if CutLeak(Before(st, lives[0]), lives[0].crash) == map[] then 0 else 1)
      + LeakingCrashes(Live(st, lives[0]), lives[1..])
  }

  /** Nothing is lost over any number of crashes but one address for each that fell between those two statements. */
  lemma {:induction false} LivesStayCrashed(st: State, leak: Rows, lives: seq<Life>)
    requires Crashed(st, leak) && ValidGrants(st) && LegalLives(st, lives)
    ensures |LeakedBy(st, leak, lives)| == |leak| + LeakingCrashes(st, lives)
    ensures Crashed(LiveAll(st, lives), LeakedBy(st, leak, lives)) && ValidGrants(LiveAll(st, lives))
    decreases |lives|
  {
    if lives != [] {
      var first := CutLeak(Before(st, lives[0]), lives[0].crash);
      LifeStaysCrashed(st, leak, lives[0]);
      SumSize(leak, first);
      LeaksOneAtMost(Before(st, lives[0]), lives[0].crash);
      LivesStayCrashed(Live(st, lives[0]), leak + first, lives[1..]);
    }
  }

  /**
   * After any number of lives, start-up and any run: keys and firewall agree with the session rows, and so do the
   * occupied addresses, but for one for each leaking crash.
   */
  lemma {:induction false} LivesAreExact(st: State, lives: seq<Life>, now: State, restart: Op, ops: seq<Op>, p: Packet)
    requires Recoverable(st) && ValidGrants(st) && LegalLives(st, lives) && now == LiveAll(st, lives)
    requires restart.RestartOp? && LegalRun(now, [restart] + ops)
    ensures |LeakedBy(st, map[], lives)| == LeakingCrashes(st, lives)
    ensures var e := Run(now, [restart] + ops);
            && PoolMatchesBut(e.pool, LeakedBy(st, map[], lives), e.sessions)
            && e.psks.Keys == e.sessions.Keys
            && (Accepts(e.chain, p) <==> exists sid :: SessionAllows(e, sid, p))
  {
    NoLeakIsCrashed(st);
    LivesStayCrashed(st, map[], lives);
    CrashedRunsAreExact(now, LeakedBy(st, map[], lives), restart, ops, p);
  }

  // ---- Peers after the crashes ------------------------------------------------------------

  lemma PeerGoneWithLeak(st: State, leak: Rows, sid: SessionID, s: Session, env: DeleteEnv)
    ensures PeerGone(WithLeak(st, leak), sid, s, env) <==> PeerGone(st, sid, s, env)
  {
  }

  lemma {:induction false} AllGoneWithLeak(st: State, leak: Rows, rows: seq<SessionID>, sel: Selection, i: nat,
      envs: nat -> DeleteEnv)
    requires i <= |rows| && Apart(st, leak)
    ensures AllGone(WithLeak(st, leak), rows, sel, i, envs) <==> AllGone(st, rows, sel, i, envs)
    decreases |rows| - i
  {
    if i < |rows| {
      var sid, w := rows[i], WithLeak(st, leak);
      if sid in st.sessions && Picks(sel, st.peers.Keys, sid, st.sessions[sid]) {
        var d := Delete(st, sid, st.sessions[sid], envs(i));
        PeerGoneWithLeak(st, leak, sid, st.sessions[sid], envs(i));
        assert Delete(w, sid, w.sessions[sid], envs(i)) == WithLeak(d, leak) by {
          DeleteWithLeak(st, leak, sid, st.sessions[sid], envs(i));
        }
        DeleteKeepsApart(st, leak, sid, st.sessions[sid], envs(i));
        AllGoneWithLeak(d, leak, rows, sel, i + 1, envs);
      } else {
        AllGoneWithLeak(st, leak, rows, sel, i + 1, envs);
      }
    }
  }

  lemma FollowWithLeak(st: State, leak: Rows, op: Op)
    requires Apart(st, leak)
    ensures PeersFollow(WithLeak(st, leak), op) <==> PeersFollow(st, op)
  {
    match op
    case CreateOp(sid, user, server, key, now, env) => CreateWithLeak(st, leak, sid, user, server, key, now, env);
    case EndOp(sel, rows, envs) => AllGoneWithLeak(st, leak, rows, sel, 0, envs);
    case _ =>
  }

  lemma {:induction false} FollowRunWithLeak(st: State, leak: Rows, ops: seq<Op>)
    requires Apart(st, leak)
    ensures PeersFollowRun(WithLeak(st, leak), ops) <==> PeersFollowRun(st, ops)
    decreases |ops|
  {
    if ops != [] {
      FollowWithLeak(st, leak, ops[0]);
      StepWithLeak(st, leak, ops[0]);
      FollowRunWithLeak(Step(st, ops[0]), leak, ops[1..]);
    }
  }

  lemma ExactWithLeak(st: State, leak: Rows)
    requires AllExact(st)
    ensures AllExact(WithLeak(st, leak))
  {
    forall server | server in st.peers ensures PeersExact(WithLeak(st, leak), server) {
      SameDueSameExact(st, WithLeak(st, leak), server);
    }
  }

  /** After any number of lives, too, the peers stay exact from a start-up on that clears the interfaces. */
  lemma {:induction false} LivesKeepPeersExact(st: State, lives: seq<Life>, now: State, restart: Op, ops: seq<Op>)
    requires Recoverable(st) && ValidGrants(st) && LegalLives(st, lives) && now == LiveAll(st, lives)
    requires restart.RestartOp? && LegalRun(now, [restart] + ops) && PeersFollowRun(now, [restart] + ops)
    ensures AllExact(Run(now, [restart] + ops))
  {
    var leak := LeakedBy(st, map[], lives);
    NoLeakIsCrashed(st);
    LivesStayCrashed(st, map[], lives);
    PeersExactFrom(now, leak, Core(now, leak), restart, ops);
  }

  lemma {:induction false} PeersExactFrom(now: State, leak: Rows, core: State, restart: Op, ops: seq<Op>)
    requires Crashed(now, leak) && ValidGrants(now) && core == Core(now, leak)
    requires restart.RestartOp? && LegalRun(now, [restart] + ops) && PeersFollowRun(now, [restart] + ops)
    ensures AllExact(Run(now, [restart] + ops))
  {
    CoreWithLeak(now, leak);
    RunWithLeak(core, leak, [restart] + ops);
    FollowRunWithLeak(core, leak, [restart] + ops);
    RunsKeepPeersExact(core, restart, ops);
    ExactWithLeak(Run(core, [restart] + ops), leak);
  }
}
