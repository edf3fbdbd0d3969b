/** Which sessions each ending operation ends, told from their rows (server/internal/session/manager.go). */
module SessionEndings {
  import opened Options
  import opened Text
  import opened IPPool
  import opened Sessions
  import opened SessionFacts
  import opened SessionRuns

  /** An operation on every session, all of whose statements succeed. */
  ghost predicate Ends(st: State, op: Op, sel: Selection) {
    Inv(st) && op.EndOp? && op.sel == sel && AllEnvsSucceed(op.rows, op.envs) && ListsAll(op.rows, st)
  }

  lemma StaysIffNotPicked(st: State, op: Op, sel: Selection, sid: SessionID)
    requires Ends(st, op, sel) && sid in st.sessions
    ensures sid in Step(st, op).sessions <==> !Picks(sel, st.peers.Keys, sid, st.sessions[sid])
  {
    EndsExactlySelected(st, op.rows, op.sel, op.envs, sid);
  }

  /** Texts strconv.Atoi does not take for a positive number. */
  predicate NoPositiveNumber(text: string) {
    match Atoi(text)
    case None => true
    case Some(n) => n <= 0
  }

  /** A session outlives the expiry exactly if it was last seen within the timeout, and within 90 s if none is set. */
  lemma {:induction false} StaleEnd(st: State, op: Op, text: string, n: nat, now: int, sid: SessionID)
    requires Ends(st, op, Stale(text, now)) && sid in st.sessions
    requires (text == Itoa(n) && n > 0) || (NoPositiveNumber(text) && n == 90)
    ensures sid in Step(st, op).sessions <==> st.sessions[sid].keepalive >= now - n
  {
    AtoiItoa(n);
    StaysIffNotPicked(st, op, Stale(text, now), sid);
  }

  /**
   * A session outlives the check for dead peers exactly if it is younger than three minutes, its server does not run,
   * or its peer reports a handshake, at most three minutes old.
   */
  lemma DeadEnd(st: State, op: Op, now: int, ages: map<SessionID, int>, sid: SessionID)
    requires Ends(st, op, Dead(now, ages)) && sid in st.sessions
    ensures sid in Step(st, op).sessions <==>
            || now - st.sessions[sid].created < 180
            || st.sessions[sid].server !in st.peers
            || (sid in ages && ages[sid] != 0 && ages[sid] <= 180)
  {
    StaysIffNotPicked(st, op, Dead(now, ages), sid);
  }

  /** Ending a user's sessions, on all servers or on one, ends those and no others. */
  lemma UserEnd(st: State, op: Op, user: UserID, sid: SessionID)
    requires Ends(st, op, OfUser(user)) && sid in st.sessions
    ensures sid in Step(st, op).sessions <==> st.sessions[sid].user != user
  {
    StaysIffNotPicked(st, op, OfUser(user), sid);
  }

  lemma UserServerEnd(st: State, op: Op, user: UserID, server: ServerID, sid: SessionID)
    requires Ends(st, op, OfUserOnServer(user, server)) && sid in st.sessions
    ensures sid in Step(st, op).sessions <==> st.sessions[sid].user != user || st.sessions[sid].server != server
  {
    StaysIffNotPicked(st, op, OfUserOnServer(user, server), sid);
  }

  /** Ending one session ends that one, and ending all ends all. */
  lemma OneEnd(st: State, op: Op, id: SessionID, sid: SessionID)
    requires Ends(st, op, ById(id)) && sid in st.sessions
    ensures sid in Step(st, op).sessions <==> sid != id
  {
    StaysIffNotPicked(st, op, ById(id), sid);
  }

  lemma AllEnd(st: State, op: Op)
    requires Ends(st, op, Everything)
    ensures Step(st, op).sessions == map[]
  {
    forall sid ensures sid !in Step(st, op).sessions {
      EndsExactlySelected(st, op.rows, op.sel, op.envs, sid);
    }
  }
}
