/**
 * The daemon's VPN connections and the rule that no two live ones share a network (client/internal/daemon: openvpn.go,
 * openvpn_diag.go, tunnel.go, tunnel_manager.go, tunnel_conflict.go).
 */
module Exclusion {
  import opened Options
  import opened NetSets

  type ID = string
  type Owner = string

  /** Networks as adding and merging leave them. */
  type Nets = n: NetSet | Canonical(n) witness NetSet([], false)

  datatype Status = Disconnected | Connecting | Connected | Failed

  predicate Running(s: Status) {
    s == Connecting || s == Connected
  }

  /** ended: OpenVPN has said FATAL or EXITING. The daemon keeps no such field; only the hypotheses below read it. */
  datatype Vpn = Vpn(owner: Owner, name: string, status: Status, profileNets: Nets, networks: Nets,
                     stopped: bool, errFinal: bool, ended: bool)

  datatype Tunnel = Tunnel(owner: Owner, name: string, status: Status, nets: Nets)

  datatype Daemon = Daemon(sessions: map<ID, Vpn>, known: map<ID, Nets>, tunnels: map<ID, Tunnel>)

  const LEGACY: Owner := "legacy"

  const IDLE := Daemon(map[], map[], map[])

  // ---- Who is live, and the conflict check --------------------------------------

  /** A connection: a registered OpenVPN session or a WireGuard tunnel. */
  datatype Conn = Session(id: ID) | Wire(id: ID)

  predicate VpnLive(v: Vpn) {
    !v.stopped && Running(v.status)
  }

  /** What a live connection uses, under which name and for whom. */
  datatype Claim = Claim(owner: Owner, name: string, nets: Nets)

  function ClaimOf(d: Daemon, c: Conn): Option<Claim> {
    match c
    case Session(id) =>
      if id in d.sessions && VpnLive(d.sessions[id])
      then Some(Claim(d.sessions[id].owner, d.sessions[id].name, d.sessions[id].networks)) else None
    case Wire(id) =>
      if id in d.tunnels && Running(d.tunnels[id].status)
      then Some(Claim(d.tunnels[id].owner, d.tunnels[id].name, d.tunnels[id].nets)) else None
  }

  predicate Clash(d: Daemon, except: ID, want: Nets, c: Conn) {
    c.id != except && ClaimOf(d, c).Some? && Overlap(want, ClaimOf(d, c).value.nets)
  }

  ghost predicate Conflict(d: Daemon, except: ID, want: Nets) {
    exists c :: Clash(d, except, want, c)
  }

  /** No two live connections share a network. */
  ghost predicate Exclusive(d: Daemon) {
    forall c, e :: c != e && ClaimOf(d, c).Some? && ClaimOf(d, e).Some? ==>
                     !Overlap(ClaimOf(d, c).value.nets, ClaimOf(d, e).value.nets)
  }

  function Union(a: Nets, b: Nets): Nets {
    MergeIsUnion(a, b);
    Merge(a, b)
  }

  // ---- Steps -------------------------------------------------------------------

  /** The STATE lines the daemon tells apart. */
  datatype StateLine = CONNECTED | PROGRESS | EXITING | OTHER

  /** Checking and starting, and checking and stopping, are single steps. */
  datatype Step =
    | ConnectVpn(owner: Owner, id: ID, name: string, profileNets: Nets, started: bool)
    | DisconnectVpn(owner: Owner, id: ID)
    | PushReply(id: ID, pushed: Nets)
    | ReplacedPush(id: ID, nets: Nets)
    | State(id: ID, line: StateLine)
    | Fatal(id: ID)
    | FailVpn(id: ID, final: bool)
    | Reap(id: ID)
    | ImportTunnel(owner: Owner, id: ID, name: string, nets: Nets)
    | StartTunnel(owner: Owner, id: ID)
    | Finish(id: ID, ok: bool)
    | StopTunnel(owner: Owner, id: ID)
    | DeleteTunnel(owner: Owner, id: ID)
    | DeviceLost(id: ID)

  function SetVpn(d: Daemon, id: ID, v: Vpn): Daemon {
    d.(sessions := d.sessions[id := v])
  }

  function SetTunnel(d: Daemon, id: ID, t: Tunnel): Daemon {
    d.(tunnels := d.tunnels[id := t])
  }

  predicate OwnsVpn(d: Daemon, owner: Owner, id: ID) {
    id in d.sessions && d.sessions[id].owner == owner
  }

  /** Tunnels from before owners were recorded are everybody's. */
  predicate OwnsTunnel(d: Daemon, owner: Owner, id: ID) {
    id in d.tunnels && (d.tunnels[id].owner == owner || d.tunnels[id].owner == LEGACY)
  }

  /** The owner's session of this id, if any, is told to stop. */
  function StopOwn(d: Daemon, owner: Owner, id: ID): Daemon {
    if OwnsVpn(d, owner, id) then SetVpn(d, id, d.sessions[id].(stopped := true)) else d
  }

  /** Networks of the profile, with those learnt on its last connection. */
  function Wanted(d: Daemon, id: ID, profileNets: Nets): Nets {
    Union(profileNets, if id in d.known then d.known[id] else NOTHING)
  }

  function OnState(v: Vpn, line: StateLine): Vpn {
    match line
    case CONNECTED => v.(status := Connected)
    case PROGRESS => if v.status == Connected then v else v.(status := Connecting)
    case EXITING => v.(status := if v.status == Failed then Failed else Disconnected, ended := true)
    case OTHER => v
  }

  function SetError(v: Vpn): Vpn {
    if v.errFinal then v else v.(status := Failed)
  }

  /** The session uses these networks from now on, and they are remembered for its next connection. */
  function Learn(d: Daemon, id: ID, nets: Nets): Daemon
    requires id in d.sessions
  {
    SetVpn(d, id, d.sessions[id].(networks := nets)).(known := d.known[id := nets])
  }

  function StopWithFinalError(d: Daemon, id: ID): Daemon
    requires id in d.sessions
  {
    SetVpn(d, id, d.sessions[id].(status := Failed, errFinal := true, stopped := true))
  }

  ghost function Push(d: Daemon, id: ID, pushed: Nets): Daemon {
    if id !in d.sessions then d
    else
      var nets := Union(d.sessions[id].profileNets, pushed);
      var e := Learn(d, id, nets);
      if Conflict(e, id, nets) then StopWithFinalError(e, id) else e
  }

  ghost function Connect(d: Daemon, owner: Owner, id: ID, name: string, profileNets: Nets, started: bool): Daemon {
    var e := StopOwn(d, owner, id);
    if Conflict(e, id, Wanted(d, id, profileNets)) || !started then e
    else SetVpn(e, id, Vpn(owner, name, Connecting, profileNets, profileNets, false, false, false))
  }

  ghost function Start(d: Daemon, owner: Owner, id: ID): Daemon {
    if !OwnsTunnel(d, owner, id) || Conflict(d, id, d.tunnels[id].nets) || Running(d.tunnels[id].status) then d
    else SetTunnel(d, id, d.tunnels[id].(status := Connecting))
  }

  ghost function Next(d: Daemon, step: Step): Daemon {
    match step
    case ConnectVpn(owner, id, name, profileNets, started) => Connect(d, owner, id, name, profileNets, started)
    case DisconnectVpn(owner, id) => StopOwn(d, owner, id)
    case PushReply(id, pushed) => Push(d, id, pushed)
    case ReplacedPush(id, nets) => d.(known := d.known[id := nets])
    case State(id, line) => if id in d.sessions then SetVpn(d, id, OnState(d.sessions[id], line)) else d
    case Fatal(id) => if id in d.sessions then SetVpn(d, id, SetError(d.sessions[id]).(ended := true)) else d
    case FailVpn(id, final) =>
      if id !in d.sessions then d
      else
        var v := SetError(d.sessions[id]);
        SetVpn(d, id, v.(errFinal := v.errFinal || final, stopped := true))
    case Reap(id) => d.(sessions := d.sessions - {id})
    case ImportTunnel(owner, id, name, nets) => SetTunnel(d, id, Tunnel(owner, name, Disconnected, nets))
    case StartTunnel(owner, id) => Start(d, owner, id)
    case Finish(id, ok) =>
      if id in d.tunnels then SetTunnel(d, id, d.tunnels[id].(status := if ok then Connected else Failed)) else d
    case StopTunnel(owner, id) =>
      if OwnsTunnel(d, owner, id) then SetTunnel(d, id, d.tunnels[id].(status := Disconnected)) else d
    case DeleteTunnel(owner, id) => if OwnsTunnel(d, owner, id) then d.(tunnels := d.tunnels - {id}) else d
    case DeviceLost(id) =>
      if id in d.tunnels && d.tunnels[id].status == Connected
      then SetTunnel(d, id, d.tunnels[id].(status := Disconnected)) else d
  }

  // ---- When a step keeps live connections apart -------------------------------------

  /** The connection of the other kind with the same id, which the conflict check never looks at. */
  function Twin(c: Conn): Conn {
    match c
    case Session(id) => Wire(id)
    case Wire(id) => Session(id)
  }

  predicate TwinClash(d: Daemon, c: Conn, nets: Nets) {
    ClaimOf(d, Twin(c)).Some? && Overlap(nets, ClaimOf(d, Twin(c)).value.nets)
  }

  /** Nothing live besides c shares a network with nets. */
  ghost predicate ClashFree(d: Daemon, c: Conn, nets: Nets) {
    !Conflict(d, c.id, nets) && !TwinClash(d, c, nets)
  }

  /** What keeps a step harmless, as the daemon could look it up before taking it. */
  ghost predicate Harmless(d: Daemon, step: Step) {
    match step
    case ConnectVpn(owner, id, _, profileNets, started) =>
      started && !Conflict(StopOwn(d, owner, id), id, Wanted(d, id, profileNets)) ==>
        !TwinClash(d, Session(id), profileNets)
    case PushReply(id, pushed) =>
      id in d.sessions && VpnLive(d.sessions[id]) ==>
        var nets := Union(d.sessions[id].profileNets, pushed);
        !Conflict(d, id, nets) ==> !TwinClash(d, Session(id), nets)
    case State(id, line) =>
      id in d.sessions && !d.sessions[id].stopped && (line == CONNECTED || line == PROGRESS) ==>
        ClashFree(d, Session(id), d.sessions[id].networks)
    case StartTunnel(owner, id) =>
      OwnsTunnel(d, owner, id) && !Running(d.tunnels[id].status) && !Conflict(d, id, d.tunnels[id].nets) ==>
        !TwinClash(d, Wire(id), d.tunnels[id].nets)
    case Finish(id, ok) => id in d.tunnels && ok ==> ClashFree(d, Wire(id), d.tunnels[id].nets)
    case _ => true
  }

  lemma ClashFreeIff(d: Daemon, c: Conn, nets: Nets)
    ensures ClashFree(d, c, nets) <==>
            forall o :: o != c && ClaimOf(d, o).Some? ==> !Overlap(nets, ClaimOf(d, o).value.nets)
  {
    if ClashFree(d, c, nets) {
      forall o | o != c && ClaimOf(d, o).Some? ensures !Overlap(nets, ClaimOf(d, o).value.nets) {
        assert !Clash(d, c.id, nets, o);
      }
    }
  }

  /** All connections but c are as they were. */
  ghost predicate OnlyChanged(d: Daemon, e: Daemon, c: Conn) {
    forall o :: o != c ==> ClaimOf(e, o) == ClaimOf(d, o)
  }

  /** One connection may change exactly when, if live, it then shares nothing with the others. */
  lemma OneChangeIff(d: Daemon, e: Daemon, c: Conn)
    requires Exclusive(d) && OnlyChanged(d, e, c)
    ensures Exclusive(e) <==> (ClaimOf(e, c).Some? ==> ClashFree(d, c, ClaimOf(e, c).value.nets))
  {
    if ClaimOf(e, c).Some? {
      var nets := ClaimOf(e, c).value.nets;
      ClashFreeIff(d, c, nets);
      forall o | ClaimOf(e, o).Some?
        ensures Overlap(nets, ClaimOf(e, o).value.nets) == Overlap(ClaimOf(e, o).value.nets, nets) {
        OverlapSymmetric(nets, ClaimOf(e, o).value.nets);
      }
    }
  }

  /** A live connection shares nothing with the others. */
  lemma LiveIsClashFree(d: Daemon, c: Conn)
    requires Exclusive(d) && ClaimOf(d, c).Some?
    ensures ClashFree(d, c, ClaimOf(d, c).value.nets)
  {
    ClashFreeIff(d, c, ClaimOf(d, c).value.nets);
  }

  /** A connection may end, or go on with what it had. */
  lemma NothingNewKeepsExclusive(d: Daemon, e: Daemon, c: Conn)
    requires Exclusive(d) && OnlyChanged(d, e, c)
    requires ClaimOf(e, c).Some? ==> ClaimOf(d, c).Some? && ClaimOf(d, c).value.nets == ClaimOf(e, c).value.nets
    ensures Exclusive(e)
  {
    OneChangeIff(d, e, c);
    if ClaimOf(e, c).Some? {
      LiveIsClashFree(d, c);
    }
  }

  lemma SameOthersSameConflict(d: Daemon, e: Daemon, c: Conn, want: Nets)
    requires OnlyChanged(d, e, c)
    ensures Conflict(d, c.id, want) == Conflict(e, c.id, want)
    ensures TwinClash(d, c, want) == TwinClash(e, c, want)
  {
    assert forall o :: Clash(d, c.id, want, o) == Clash(e, c.id, want, o);
  }

  lemma PartConflictsLess(d: Daemon, except: ID, part: Nets, rest: Nets)
    requires !Conflict(d, except, Union(part, rest))
    ensures !Conflict(d, except, part)
  {
    forall c ensures !Clash(d, except, part, c) {
      if Clash(d, except, part, c) {
        OverlapOfPart(part, rest, ClaimOf(d, c).value.nets);
        assert Clash(d, except, Union(part, rest), c);
      }
    }
  }

  lemma StopIsHarmless(d: Daemon, owner: Owner, id: ID)
    requires Exclusive(d)
    ensures Exclusive(StopOwn(d, owner, id)) && OnlyChanged(d, StopOwn(d, owner, id), Session(id))
  {
    NothingNewKeepsExclusive(d, StopOwn(d, owner, id), Session(id));
  }

  lemma ConnectIff(d: Daemon, owner: Owner, id: ID, name: string, profileNets: Nets, started: bool)
    requires Exclusive(d)
    ensures Exclusive(Connect(d, owner, id, name, profileNets, started)) <==>
            Harmless(d, ConnectVpn(owner, id, name, profileNets, started))
  {
    var e := StopOwn(d, owner, id);
    var f := Connect(d, owner, id, name, profileNets, started);
    StopIsHarmless(d, owner, id);
    if started && !Conflict(e, id, Wanted(d, id, profileNets)) {
      PartConflictsLess(e, id, profileNets, if id in d.known then d.known[id] else NOTHING);
      SameOthersSameConflict(d, e, Session(id), profileNets);
      OneChangeIff(d, f, Session(id));
    }
  }

  lemma LearnChangesOne(d: Daemon, id: ID, nets: Nets)
    requires id in d.sessions
    ensures OnlyChanged(d, Learn(d, id, nets), Session(id))
    ensures OnlyChanged(d, StopWithFinalError(Learn(d, id, nets), id), Session(id))
  {
  }

  lemma PushIff(d: Daemon, id: ID, pushed: Nets)
    requires Exclusive(d)
    ensures Exclusive(Push(d, id, pushed)) <==> Harmless(d, PushReply(id, pushed))
  {
    if id in d.sessions {
      var nets := Union(d.sessions[id].profileNets, pushed);
      var e := Learn(d, id, nets);
      LearnChangesOne(d, id, nets);
      SameOthersSameConflict(d, e, Session(id), nets);
      OneChangeIff(d, Push(d, id, pushed), Session(id));
    }
  }

  lemma StateIff(d: Daemon, id: ID, line: StateLine)
    requires Exclusive(d)
    ensures Exclusive(Next(d, State(id, line))) <==> Harmless(d, State(id, line))
  {
    if id in d.sessions {
      var e := Next(d, State(id, line));
      OneChangeIff(d, e, Session(id));
      if VpnLive(d.sessions[id]) {
        LiveIsClashFree(d, Session(id));
      }
    }
  }

  lemma StartIff(d: Daemon, owner: Owner, id: ID)
    requires Exclusive(d)
    ensures Exclusive(Start(d, owner, id)) <==> Harmless(d, StartTunnel(owner, id))
  {
    if Start(d, owner, id) != d {
      OneChangeIff(d, Start(d, owner, id), Wire(id));
    }
  }

  lemma FinishIff(d: Daemon, id: ID, ok: bool)
    requires Exclusive(d)
    ensures Exclusive(Next(d, Finish(id, ok))) <==> Harmless(d, Finish(id, ok))
  {
    OneChangeIff(d, Next(d, Finish(id, ok)), Wire(id));
  }

  lemma SessionEndIsHarmless(d: Daemon, step: Step)
    requires Exclusive(d) && (step.Fatal? || step.FailVpn? || step.Reap? || step.ReplacedPush?)
    ensures Exclusive(Next(d, step))
  {
    NothingNewKeepsExclusive(d, Next(d, step), Session(step.id));
  }

  lemma TunnelEndIsHarmless(d: Daemon, step: Step)
    requires Exclusive(d) && (step.ImportTunnel? || step.StopTunnel? || step.DeleteTunnel? || step.DeviceLost?)
    ensures Exclusive(Next(d, step))
  {
    NothingNewKeepsExclusive(d, Next(d, step), Wire(step.id));
  }

  /** Every step keeps live connections apart exactly when what was said of it beforehand holds. */
  lemma StepExclusiveIff(d: Daemon, step: Step)
    requires Exclusive(d)
    ensures Exclusive(Next(d, step)) <==> Harmless(d, step)
  {
    match step
    case ConnectVpn(owner, id, name, profileNets, started) => ConnectIff(d, owner, id, name, profileNets, started);
    case DisconnectVpn(owner, id) => StopIsHarmless(d, owner, id);
    case PushReply(id, pushed) => PushIff(d, id, pushed);
    case StartTunnel(owner, id) => StartIff(d, owner, id);
    case State(id, line) => StateIff(d, id, line);
    case Finish(id, ok) => FinishIff(d, id, ok);
    case Fatal(_) => SessionEndIsHarmless(d, step);
    case FailVpn(_, _) => SessionEndIsHarmless(d, step);
    case Reap(_) => SessionEndIsHarmless(d, step);
    case ReplacedPush(_, _) => SessionEndIsHarmless(d, step);
    case _ => TunnelEndIsHarmless(d, step);
  }

  // ---- Exclusion over runs --------------------------------------------------------

  /** The id spaces are apart and fresh, no STATE line follows FATAL or EXITING, and no Start completes after a Stop. */
  predicate Legal(d: Daemon, step: Step) {
    match step
    case ConnectVpn(_, id, _, _, _) => id !in d.tunnels
    case State(id, _) => id in d.sessions ==> !d.sessions[id].ended
    case ImportTunnel(_, id, _, _) => id !in d.tunnels && id !in d.sessions
    case Finish(id, ok) => ok && id in d.tunnels ==> d.tunnels[id].status == Connecting
    case _ => true
  }

  predicate IdsApart(d: Daemon) {
    d.sessions.Keys !! d.tunnels.Keys
  }

  /** A session that may still speak is live or stopped. */
  predicate Settled(v: Vpn) {
    v.ended || v.stopped || VpnLive(v)
  }

  ghost predicate AllSettled(d: Daemon) {
    forall id :: id in d.sessions ==> Settled(d.sessions[id])
  }

  ghost predicate Inv(d: Daemon) {
    Exclusive(d) && IdsApart(d) && AllSettled(d)
  }

  lemma LegalIsHarmless(d: Daemon, step: Step)
    requires Inv(d) && Legal(d, step)
    ensures Harmless(d, step)
  {
    match step
    case State(id, _) =>
      if id in d.sessions && VpnLive(d.sessions[id]) {
        LiveIsClashFree(d, Session(id));
      }
    case Finish(id, ok) =>
      if id in d.tunnels && ok {
        LiveIsClashFree(d, Wire(id));
      }
    case _ =>
  }

  lemma LegalKeepsIds(d: Daemon, step: Step)
    requires IdsApart(d) && Legal(d, step)
    ensures IdsApart(Next(d, step))
  {
  }

  lemma ConnectKeepsSettled(d: Daemon, owner: Owner, id: ID, name: string, profileNets: Nets, started: bool)
    requires AllSettled(d)
    ensures AllSettled(StopOwn(d, owner, id)) && AllSettled(Connect(d, owner, id, name, profileNets, started))
  {
  }

  lemma PushKeepsSettled(d: Daemon, id: ID, pushed: Nets)
    requires AllSettled(d)
    ensures AllSettled(Push(d, id, pushed))
  {
  }

  lemma StateKeepsSettled(d: Daemon, id: ID, line: StateLine)
    requires AllSettled(d) && Legal(d, State(id, line))
    ensures AllSettled(Next(d, State(id, line)))
  {
  }

  lemma LegalKeepsSettled(d: Daemon, step: Step)
    requires AllSettled(d) && Legal(d, step)
    ensures AllSettled(Next(d, step))
  {
    match step
    case ConnectVpn(owner, id, name, profileNets, started) =>
      ConnectKeepsSettled(d, owner, id, name, profileNets, started);
    case PushReply(id, pushed) => PushKeepsSettled(d, id, pushed);
    case State(id, line) => StateKeepsSettled(d, id, line);
    case _ =>
  }

  /** Every legal step keeps live connections apart, though OpenVPN sessions learn networks after they start. */
  lemma StepKeepsInv(d: Daemon, step: Step)
    requires Inv(d) && Legal(d, step)
    ensures Inv(Next(d, step))
  {
    LegalIsHarmless(d, step);
    StepExclusiveIff(d, step);
    LegalKeepsIds(d, step);
    LegalKeepsSettled(d, step);
  }

  ghost function Run(d: Daemon, steps: seq<Step>): Daemon
    decreases |steps|
  {
    if steps == [] then d else Run(Next(d, steps[0]), steps[1..])
  }

  ghost predicate LegalRun(d: Daemon, steps: seq<Step>)
    decreases |steps|
  {
    steps != [] ==> Legal(d, steps[0]) && LegalRun(Next(d, steps[0]), steps[1..])
  }

  lemma {:induction false} RunKeepsInv(d: Daemon, steps: seq<Step>)
    requires Inv(d) && LegalRun(d, steps)
    ensures Inv(Run(d, steps))
    decreases |steps|
  {
    if steps != [] {
      StepKeepsInv(d, steps[0]);
      RunKeepsInv(Next(d, steps[0]), steps[1..]);
    }
  }

  ghost predicate AlwaysExclusive(d: Daemon, steps: seq<Step>)
    decreases |steps|
  {
    Exclusive(d) && (steps != [] ==> AlwaysExclusive(Next(d, steps[0]), steps[1..]))
  }

  ghost predicate AllHarmless(d: Daemon, steps: seq<Step>)
    decreases |steps|
  {
    steps != [] ==> Harmless(d, steps[0]) && AllHarmless(Next(d, steps[0]), steps[1..])
  }

  /**
   * Any run whatever, shared ids and late steps included, is exclusive throughout exactly when each of its steps is
   * harmless.
   */
  lemma {:induction false} RunExclusiveIff(d: Daemon, steps: seq<Step>)
    requires Exclusive(d)
    ensures AlwaysExclusive(d, steps) <==> AllHarmless(d, steps)
    decreases |steps|
  {
    if steps != [] {
      StepExclusiveIff(d, steps[0]);
      if Harmless(d, steps[0]) {
        RunExclusiveIff(Next(d, steps[0]), steps[1..]);
      }
    }
  }

  /**
   * In every run of an initially idle daemon, live connections use disjoint address sets and at most one has the
   * default route.
   */
  lemma {:induction false} RunsStayExclusive(steps: seq<Step>, c: Conn, e: Conn, w: nat, x: nat)
    requires LegalRun(IDLE, steps) && c != e
    requires ClaimOf(Run(IDLE, steps), c).Some? && ClaimOf(Run(IDLE, steps), e).Some?
    ensures var n, m := ClaimOf(Run(IDLE, steps), c).value.nets, ClaimOf(Run(IDLE, steps), e).value.nets;
            !(n.all && m.all) && !(Covers(n, w, x) && Covers(m, w, x))
  {
    RunKeepsInv(IDLE, steps);
    var d := Run(IDLE, steps);
    OverlapMeaning(ClaimOf(d, c).value.nets, ClaimOf(d, e).value.nets);
  }

  // ---- Where the hypotheses are needed ----------------------------------------------

  lemma TwoLiveClash(d: Daemon, c: Conn, e: Conn, n: Nets)
    requires c != e && n.all && ClaimOf(d, c).Some? && ClaimOf(d, e).Some?
    requires ClaimOf(d, c).value.nets == n && ClaimOf(d, e).value.nets == n
    ensures !Exclusive(d)
  {
  }

  /** A legal run from d to e. */
  ghost predicate Reaches(d: Daemon, steps: seq<Step>, e: Daemon) {
    LegalRun(d, steps) && Run(d, steps) == e
  }

  lemma {:induction false} RunMore(d: Daemon, steps: seq<Step>, x: Step)
    ensures Run(d, steps + [x]) == Next(Run(d, steps), x)
    ensures LegalRun(d, steps) && Legal(Run(d, steps), x) ==> LegalRun(d, steps + [x])
    decreases |steps|
  {
    if steps == [] {
      assert [] + [x] == [x] && [x][1..] == [];
    } else {
      assert (steps + [x])[1..] == steps[1..] + [x];
      RunMore(Next(d, steps[0]), steps[1..], x);
    }
  }

  lemma OneMore(d: Daemon, steps: seq<Step>, m: Daemon, x: Step, e: Daemon)
    requires Reaches(d, steps, m) && Legal(m, x) && Next(m, x) == e
    ensures Reaches(d, steps + [x], e)
  {
    RunMore(d, steps, x);
  }

  function FreshVpn(n: Nets): Vpn {
    Vpn("", "", Connecting, n, n, false, false, false)
  }

  lemma FreshConnect(d: Daemon, id: ID, n: Nets)
    requires id !in d.sessions && forall c: Conn :: c.id != id ==> ClaimOf(d, c).None?
    ensures Next(d, ConnectVpn("", id, "", n, true)) == SetVpn(d, id, FreshVpn(n))
  {
  }

  lemma FatalReached(n: Nets, id: ID, ended: Vpn)
    requires ended == FreshVpn(n).(status := Failed, ended := true)
    ensures Reaches(IDLE, [] + [ConnectVpn("", id, "", n, true)] + [Fatal(id)], Daemon(map[id := ended], map[], map[]))
  {
    var d1 := Daemon(map[id := FreshVpn(n)], map[], map[]);
    FreshConnect(IDLE, id, n);
    OneMore(IDLE, [], IDLE, ConnectVpn("", id, "", n, true), d1);
    OneMore(IDLE, [] + [ConnectVpn("", id, "", n, true)], d1, Fatal(id), Daemon(map[id := ended], map[], map[]));
  }

  /** After Connect, FATAL and another Connect, a STATE line can bring the first session back beside the second. */
  lemma {:induction false} StateAfterFatalBreaksExclusion(n: Nets, id: ID, other: ID, steps: seq<Step>)
    requires id != other && n.all
    requires steps == [] + [ConnectVpn("", id, "", n, true)] + [Fatal(id)] + [ConnectVpn("", other, "", n, true)]
    ensures LegalRun(IDLE, steps) && !Exclusive(Run(IDLE, steps + [State(id, CONNECTED)]))
  {
    var ended := FreshVpn(n).(status := Failed, ended := true);
    var d2 := Daemon(map[id := ended], map[], map[]);
    var d3 := SetVpn(d2, other, FreshVpn(n));
    FatalReached(n, id, ended);
    FreshConnect(d2, other, n);
    OneMore(IDLE, [] + [ConnectVpn("", id, "", n, true)] + [Fatal(id)], d2, ConnectVpn("", other, "", n, true), d3);
    RunMore(IDLE, steps, State(id, CONNECTED));
    TwoLiveClash(Next(d3, State(id, CONNECTED)), Session(id), Session(other), n);
  }

  lemma StartReached(n: Nets, id: ID, t: Tunnel)
    requires t == Tunnel("", "", Connecting, n)
    ensures Reaches(IDLE, [] + [ImportTunnel("", id, "", n)] + [StartTunnel("", id)],
            Daemon(map[], map[], map[id := t]))
  {
    var d1 := Daemon(map[], map[], map[id := t.(status := Disconnected)]);
    OneMore(IDLE, [], IDLE, ImportTunnel("", id, "", n), d1);
    OneMore(IDLE, [] + [ImportTunnel("", id, "", n)], d1, StartTunnel("", id), Daemon(map[], map[], map[id := t]));
  }

  lemma StopReached(n: Nets, id: ID, starts: seq<Step>, stopped: Tunnel)
    requires starts == [] + [ImportTunnel("", id, "", n)] + [StartTunnel("", id)]
             && stopped == Tunnel("", "", Disconnected, n)
    ensures Reaches(IDLE, starts + [StopTunnel("", id)], Daemon(map[], map[], map[id := stopped]))
  {
    StartReached(n, id, stopped.(status := Connecting));
    OneMore(IDLE, starts, Daemon(map[], map[], map[id := stopped.(status := Connecting)]), StopTunnel("", id),
            Daemon(map[], map[], map[id := stopped]));
  }

  lemma ConnectAfterStop(n: Nets, id: ID, other: ID, stops: seq<Step>, e: Daemon)
    requires id != other && stops == [] + [ImportTunnel("", id, "", n)] + [StartTunnel("", id)] + [StopTunnel("", id)]
    requires e == Daemon(map[other := FreshVpn(n)], map[], map[id := Tunnel("", "", Disconnected, n)])
    ensures Reaches(IDLE, stops + [ConnectVpn("", other, "", n, true)], e)
  {
    var d := Daemon(map[], map[], map[id := Tunnel("", "", Disconnected, n)]);
    StopReached(n, id, [] + [ImportTunnel("", id, "", n)] + [StartTunnel("", id)], Tunnel("", "", Disconnected, n));
    FreshConnect(d, other, n);
    OneMore(IDLE, stops, d, ConnectVpn("", other, "", n, true), e);
  }

  lemma FinishBeside(n: Nets, id: ID, other: ID, d: Daemon)
    requires n.all && id in d.tunnels && d.tunnels[id].nets == n && other in d.sessions
             && d.sessions[other] == FreshVpn(n)
    ensures !Exclusive(Next(d, Finish(id, true)))
  {
    TwoLiveClash(Next(d, Finish(id, true)), Wire(id), Session(other), n);
  }

  /** After Start, Stop and another Connect, the end of that Start can bring the tunnel up beside the session. */
  lemma {:induction false} StartAfterStopBreaksExclusion(n: Nets, id: ID, other: ID, stops: seq<Step>, steps: seq<Step>)
    requires id != other && n.all
    requires stops == [] + [ImportTunnel("", id, "", n)] + [StartTunnel("", id)] + [StopTunnel("", id)]
    requires steps == stops + [ConnectVpn("", other, "", n, true)]
    ensures LegalRun(IDLE, steps) && !Exclusive(Run(IDLE, steps + [Finish(id, true)]))
  {
    var d := Daemon(map[other := FreshVpn(n)], map[], map[id := Tunnel("", "", Disconnected, n)]);
    ConnectAfterStop(n, id, other, stops, d);
    RunMore(IDLE, steps, Finish(id, true));
    FinishBeside(n, id, other, d);
  }

  /** A session and a tunnel of one id are never compared: each is the exception of the other's check. */
  lemma {:induction false} SharedIdBreaksExclusion(n: Nets, id: ID, steps: seq<Step>)
    requires n.all && steps == [] + [ImportTunnel("", id, "", n)] + [StartTunnel("", id)]
    ensures LegalRun(IDLE, steps) && !Exclusive(Run(IDLE, steps + [ConnectVpn("", id, "", n, true)]))
  {
    var d := Daemon(map[], map[], map[id := Tunnel("", "", Connecting, n)]);
    StartReached(n, id, Tunnel("", "", Connecting, n));
    RunMore(IDLE, steps, ConnectVpn("", id, "", n, true));
    FreshConnect(d, id, n);
    TwoLiveClash(Next(d, ConnectVpn("", id, "", n, true)), Wire(id), Session(id), n);
  }
}
