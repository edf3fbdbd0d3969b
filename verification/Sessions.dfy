/** The five stores of a VPN session and what each operation does to them (server/internal/session/manager.go). */
module Sessions {
  import opened Options
  import opened Text
  import opened Prefixes
  import opened Iptables
  import opened IPPool
  import WireGuard
  import Firewall
  import Ports

  type UserID = string

  const DEAD_THRESHOLD := 180
  const DEFAULT_TIMEOUT := 90

  /** A row of the sessions table. */
  datatype Session = Session(user: UserID, server: ServerID, key: Option<WireGuard.Key>, ip: nat, created: int,
    keepalive: int)

  /** A row of the resources table. */
  datatype ResourceRow = ResourceRow(ip: nat, network: bool, mask: Option<nat>, ports: Option<string>) {
    function Network(): Prefix {
      Prefix(32, ip, if network && mask.Some? then mask.value else 32)
    }
  }

  /** grants holds what the access tables give a user on a server. */
  datatype State = State(
    pool: Rows,
    sessions: map<SessionID, Session>,
    psks: map<SessionID, string>,
    peers: map<ServerID, WireGuard.PeerTable>,
    chain: seq<ChainRule>,
    grants: map<(ServerID, UserID), seq<ResourceRow>>)

  // ---- Resources of a user -----------------------------------------------------

  function RuleOf(row: ResourceRow): Firewall.Rule {
    Firewall.Rule(row.Network(), if row.ports.None? then "" else Trim(Ports.Normalize(row.ports.value)))
  }

  function RulesOf(rows: seq<ResourceRow>): (rules: seq<Firewall.Rule>)
    ensures |rules| == |rows|
  {
    if rows == [] then [] else [RuleOf(rows[0])] + RulesOf(rows[1..])
  }

  lemma {:induction false} RulesAt(rows: seq<ResourceRow>, i: nat)
    requires i < |rows|
    ensures RulesOf(rows)[i] == RuleOf(rows[i])
    decreases |rows|
  {
    if i > 0 {
      RulesAt(rows[1..], i - 1);
    }
  }

  function Granted(grants: map<(ServerID, UserID), seq<ResourceRow>>, server: ServerID,
      user: UserID): seq<ResourceRow> {
    if (server, user) in grants then grants[(server, user)] else []
  }

  /** The iptables calls for a client address of a user on a server. */
  function Planned(grants: map<(ServerID, UserID), seq<ResourceRow>>, server: ServerID, user: UserID, ip: nat): Plan {
    Firewall.PlanFor(ip, RulesOf(Granted(grants, server, user)))
  }

  function PlanOf(st: State, s: Session): Plan {
    Planned(st.grants, s.server, s.user, s.ip)
  }

  // ---- Outcomes of foreign calls ---------------------------------------------------

  /**
   * listing: the sessions of the server as the database lists them (None: the query failed); applied: the interface
   * took them.
   */
  datatype SyncEnv = SyncEnv(listing: Option<seq<SessionID>>, applied: bool)

  datatype DeleteEnv = DeleteEnv(
    removePeerOk: bool,
    resourcesOk: bool,
    ipt: (nat, nat) -> bool,
    releaseOk: bool,
    deleteOk: bool,
    sync: SyncEnv)

  datatype CreateEnv = CreateEnv(
    psk: Option<string>,
    pick: Option<nat>,
    insertOk: bool,
    addPeerOk: bool,
    sync: SyncEnv,
    resourcesOk: bool,
    ipt: (nat, nat) -> bool,
    endpointsOk: bool,
    releaseOk: bool,
    undo: DeleteEnv)

  datatype Outcome =
    | Created
    | NoServer | NoPsk | NoAddress | InsertFailed
    | PeerFailed | ResourcesFailed | RulesFailed | EndpointsFailed

  // ---- Peers ---------------------------------------------------------------------------

  predicate IsListing(listing: seq<SessionID>, sessions: map<SessionID, Session>, server: ServerID) {
    && (forall sid :: sid in listing ==> sid in sessions && sessions[sid].server == server)
    && (forall sid :: sid in sessions && sessions[sid].server == server ==> sid in listing)
    && (forall i, j :: 0 <= i < j < |listing| ==> listing[i] != listing[j])
  }

  /** Peer entries for the listed sessions whose preshared key is still in memory. */
  function Entries(listing: seq<SessionID>, sessions: map<SessionID, Session>, psks: map<SessionID,
      string>): seq<WireGuard.PeerEntry>
    requires forall sid :: sid in listing ==> sid in sessions
  {
    if listing == [] then []
    else
      var n := |listing| - 1;
      var sid := listing[n];
      Entries(listing[..n], sessions, psks) +
      (if sid in psks then [WireGuard.PeerEntry(sessions[sid].key, sessions[sid].ip, psks[sid])] else [])
  }

  predicate SyncSucceeds(st: State, server: ServerID, env: SyncEnv) {
    server in st.peers && env.applied && env.listing.Some? && IsListing(env.listing.value, st.sessions, server)
  }

  function Sync(st: State, server: ServerID, env: SyncEnv): (r: State)
    ensures r == st.(peers := r.peers) && r.peers.Keys == st.peers.Keys
  {
    if SyncSucceeds(st, server, env) then
      st.(peers := st.peers[server := WireGuard.Table(Entries(env.listing.value, st.sessions, st.psks))])
    else st
  }

  function AddPeer(st: State, s: Session, psk: string): (r: State)
    requires s.server in st.peers && s.key.Some?
    ensures r == st.(peers := r.peers) && r.peers.Keys == st.peers.Keys
  {
    st.(peers := st.peers[s.server := st.peers[s.server][s.key.value := WireGuard.Peer(s.ip, psk)]])
  }

  function RemovePeer(st: State, s: Session, ok: bool): (r: State)
    ensures r == st.(peers := r.peers) && r.peers.Keys == st.peers.Keys
  {
    if s.server in st.peers && s.key.Some? && ok then
      st.(peers := st.peers[s.server := st.peers[s.server] - {s.key.value}])
    else st
  }

  // ---- deleteSession -----------------------------------------------------------------------

  function DeletePlan(st: State, s: Session, env: DeleteEnv): Plan {
    if env.resourcesOk then PlanOf(st, s) else []
  }

  /** Everything up to the DELETE statement. */
  function Unhook(st: State, sid: SessionID, s: Session, env: DeleteEnv): State {
    var st1 := RemovePeer(st, s, env.removePeerOk);
    st1.(chain := RemoveFrom(st1.chain, DeletePlan(st1, s, env), 0, env.ipt),
         pool := if env.releaseOk then ReleaseRow(st1.pool, s.server, s.ip) else st1.pool,
         psks := st1.psks - {sid})
  }

  function Delete(st: State, sid: SessionID, s: Session, env: DeleteEnv): State {
    var st1 := Unhook(st, sid, s, env);
    if env.deleteOk then Sync(st1.(sessions := st1.sessions - {sid}), s.server, env.sync) else st1
  }

  // ---- CreateSession -----------------------------------------------------------------------

  /** A key and an address set aside for a session. */
  function Hold(st: State, sid: SessionID, server: ServerID, ip: nat, psk: string): State {
    st.(psks := st.psks[sid := psk], pool := AllocateRow(st.pool, server, ip, sid))
  }

  function Unhold(held: State, sid: SessionID, server: ServerID, ip: nat, releaseOk: bool): State {
    held.(psks := held.psks - {sid}, pool := if releaseOk then ReleaseRow(held.pool, server, ip) else held.pool)
  }

  /** Preshared key, address and session row; the last state of the stores when one of them fails. */
  function Prepare(st: State, sid: SessionID, user: UserID, server: ServerID, key: Option<WireGuard.Key>, now: int,
      env: CreateEnv)
    : (State, Outcome)
  {
    if server !in st.peers then (st, NoServer)
    else if env.psk.None? then (st, NoPsk)
    else if env.pick.None? || !IsFree(st.pool, server, env.pick.value)
      then (st.(psks := st.psks[sid := env.psk.value] - {sid}), NoAddress)
    else
      var ip := env.pick.value;
      var held := Hold(st, sid, server, ip, env.psk.value);
      if !env.insertOk then (Unhold(held, sid, server, ip, env.releaseOk), InsertFailed)
      else (held.(sessions := held.sessions[sid := Session(user, server, key, ip, now, now)]), Created)
  }

  /** The peer of a prepared session and the sync after it. */
  function HookPeers(st: State, s: Session, psk: string, env: CreateEnv): (r: State)
    requires s.server in st.peers && s.key.Some?
    ensures r == st.(peers := r.peers) && r.peers.Keys == st.peers.Keys
  {
    Sync(AddPeer(st, s, psk), s.server, env.sync)
  }

  /** Its firewall rules and endpoints. */
  function HookRules(st: State, s: Session, env: CreateEnv): (r: (State, Outcome))
    ensures r.0 == st.(chain := r.0.chain)
  {
    if !env.resourcesOk then (st, ResourcesFailed)
    else
      var (chain, added) := AddFrom(st.chain, PlanOf(st, s), 0, env.ipt);
      (st.(chain := chain), if !added then RulesFailed else if !env.endpointsOk then EndpointsFailed else Created)
  }

  /** What was done before the step that failed, if any. */
  function Hook(st: State, s: Session, psk: string, env: CreateEnv): (State, Outcome)
    requires s.server in st.peers
  {
    if s.key.None? || !env.addPeerOk then (st, PeerFailed) else HookRules(HookPeers(st, s, psk, env), s, env)
  }

  function Create(st: State, sid: SessionID, user: UserID, server: ServerID, key: Option<WireGuard.Key>, now: int,
      env: CreateEnv)
    : (State, Outcome)
  {
    var (st1, prepared) := Prepare(st, sid, user, server, key, now, env);
    if prepared != Created then (st1, prepared)
    else
      var s := st1.sessions[sid];
      var (st2, hooked) := Hook(st1, s, env.psk.value, env);
      (if hooked == Created then st2 else Delete(st2, sid, s, env.undo), hooked)
  }

  // ---- The operations that end sessions ------------------------------------------------------

  /** Which sessions an operation ends. ages: handshake ages the interface reports, None for a missing peer. */
  datatype Selection =
    | ById(sid: SessionID)
    | OfUser(user: UserID)
    | OfUserOnServer(user: UserID, server: ServerID)
    | Everything
    | Stale(timeout: string, now: int)
    | Dead(now: int, ages: map<SessionID, int>)

  function TimeoutSeconds(setting: string): int {
    match Atoi(setting)
    case None => DEFAULT_TIMEOUT
    case Some(n) => if n <= 0 then DEFAULT_TIMEOUT else n
  }

  predicate Picks(sel: Selection, running: set<ServerID>, sid: SessionID, s: Session) {
    match sel
    case ById(id) => sid == id
    case OfUser(u) => s.user == u
    case OfUserOnServer(u, srv) => s.user == u && s.server == srv
    case Everything => true
    case Stale(timeout, now) => s.keepalive < now - TimeoutSeconds(timeout)
    case Dead(now, ages) =>
      now - s.created >= DEAD_THRESHOLD && s.server in running &&
      (sid !in ages || ages[sid] == 0 || ages[sid] > DEAD_THRESHOLD)
  }

  /** Deletes the selected ones among the listed rows, one by one. */
  function EndFrom(st: State, rows: seq<SessionID>, sel: Selection, i: nat, envs: nat -> DeleteEnv): State
    requires i <= |rows|
    decreases |rows| - i
  {
    if i == |rows| then st
    else
      var sid := rows[i];
      if sid in st.sessions && Picks(sel, st.peers.Keys, sid, st.sessions[sid]) then
        EndFrom(Delete(st, sid, st.sessions[sid], envs(i)), rows, sel, i + 1, envs)
      else EndFrom(st, rows, sel, i + 1, envs)
  }

  lemma EndFromNext(st: State, rows: seq<SessionID>, sel: Selection, i: nat, envs: nat -> DeleteEnv, next: State)
    requires i < |rows|
    requires var sid := rows[i];
             next == if sid in st.sessions && Picks(sel, st.peers.Keys, sid, st.sessions[sid])
                     then Delete(st, sid, st.sessions[sid], envs(i)) else st
    ensures EndFrom(st, rows, sel, i, envs) == EndFrom(next, rows, sel, i + 1, envs)
  {
  }
}
