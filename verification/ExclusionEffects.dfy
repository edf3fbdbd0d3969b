/** What each step of the daemon brings up and takes down, told from who is live (client/internal/daemon). */
module ExclusionEffects {
  import opened Options
  import opened NetSets
  import opened Exclusion

  /** Every other connection is live or not, and with what, as before. */
  ghost predicate OthersKept(d: Daemon, e: Daemon, c: Conn) {
    forall o: Conn :: o != c ==> ClaimOf(e, o) == ClaimOf(d, o)
  }

  /** A live connection under another id shares a network with nets. */
  ghost predicate TakenBeside(d: Daemon, id: ID, nets: Nets) {
    exists c: Conn :: c.id != id && ClaimOf(d, c).Some? && Overlap(nets, ClaimOf(d, c).value.nets)
  }

  lemma UnionOverlaps(a: Nets, b: Nets, n: Nets)
    ensures Overlap(Union(a, b), n) <==> Overlap(a, n) || Overlap(b, n)
  {
    MergeIsUnion(a, b);
    OverlapMeaning(Union(a, b), n);
    OverlapMeaning(a, n);
    OverlapMeaning(b, n);
  }

  lemma NothingOverlapsNot(n: Nets)
    ensures !Overlap(NOTHING, n)
  {
    OverlapMeaning(NOTHING, n);
  }

  lemma TakenByUnion(d: Daemon, id: ID, a: Nets, b: Nets)
    ensures TakenBeside(d, id, Union(a, b)) <==> TakenBeside(d, id, a) || TakenBeside(d, id, b)
  {
    forall c: Conn | ClaimOf(d, c).Some?
      ensures Overlap(Union(a, b), ClaimOf(d, c).value.nets) <==>
              Overlap(a, ClaimOf(d, c).value.nets) || Overlap(b, ClaimOf(d, c).value.nets)
    {
      UnionOverlaps(a, b, ClaimOf(d, c).value.nets);
    }
  }

  lemma ConflictIsTaken(d: Daemon, e: Daemon, id: ID, nets: Nets)
    requires forall c: Conn :: c.id != id ==> ClaimOf(e, c) == ClaimOf(d, c)
    ensures Conflict(e, id, nets) <==> TakenBeside(d, id, nets)
  {
    if c: Conn :| Clash(e, id, nets, c) {
      assert ClaimOf(d, c).Some?;
    }
    if c: Conn :| c.id != id && ClaimOf(d, c).Some? && Overlap(nets, ClaimOf(d, c).value.nets) {
      assert Clash(e, id, nets, c);
    }
  }

  // ---- OpenVPN sessions ------------------------------------------------------------------

  /** Disconnecting takes the owner's session down and touches nothing else; anyone else's request changes nothing. */
  lemma DisconnectEffect(d: Daemon, owner: Owner, id: ID)
    ensures var e := Next(d, DisconnectVpn(owner, id));
            if id in d.sessions && d.sessions[id].owner == owner
            then ClaimOf(e, Session(id)).None? && OthersKept(d, e, Session(id)) && e.known == d.known
            else e == d
  {
  }

  /** The networks a start is checked with: the profile's, and those its last connection learnt. */
  ghost predicate StartTaken(d: Daemon, id: ID, profileNets: Nets) {
    TakenBeside(d, id, profileNets) || (id in d.known && TakenBeside(d, id, d.known[id]))
  }

  lemma WantedTaken(d: Daemon, id: ID, profileNets: Nets)
    ensures TakenBeside(d, id, Wanted(d, id, profileNets)) <==> StartTaken(d, id, profileNets)
  {
    TakenByUnion(d, id, profileNets, if id in d.known then d.known[id] else NOTHING);
    forall c: Conn | ClaimOf(d, c).Some? ensures !Overlap(NOTHING, ClaimOf(d, c).value.nets) {
      NothingOverlapsNot(ClaimOf(d, c).value.nets);
    }
  }

  /**
   * A start that is not refused and succeeds brings a session with the profile's networks up; one that is refused or
   * fails leaves none of the owner's up. Nothing else changes.
   */
  lemma ConnectEffect(d: Daemon, owner: Owner, id: ID, name: string, profileNets: Nets, started: bool)
    ensures var e := Next(d, ConnectVpn(owner, id, name, profileNets, started));
            && OthersKept(d, e, Session(id)) && e.known == d.known
            && ClaimOf(e, Session(id)) ==
               if started && !StartTaken(d, id, profileNets) then Some(Claim(owner, name, profileNets))
               else if id in d.sessions && d.sessions[id].owner == owner then None
               else ClaimOf(d, Session(id))
  {
    WantedTaken(d, id, profileNets);
    ConflictIsTaken(d, StopOwn(d, owner, id), id, Wanted(d, id, profileNets));
    StartOrNot(d, id, Vpn(owner, name, Connecting, profileNets, profileNets, false, false, false),
               started && !StartTaken(d, id, profileNets), Next(d, ConnectVpn(owner, id, name, profileNets, started)));
  }

  lemma StartOrNot(d: Daemon, id: ID, v: Vpn, starts: bool, e: Daemon)
    requires e == if starts then SetVpn(StopOwn(d, v.owner, id), id, v) else StopOwn(d, v.owner, id)
    requires VpnLive(v)
    ensures OthersKept(d, e, Session(id)) && e.known == d.known
    ensures ClaimOf(e, Session(id)) ==
            if starts then Some(Claim(v.owner, v.name, v.networks))
            else if id in d.sessions && d.sessions[id].owner == v.owner then None
            else ClaimOf(d, Session(id))
  {
  }

  /**
   * Pushed networks that share one with another live connection take the session down; else it goes on with the
   * profile's and the pushed ones. They are remembered either way.
   */
  lemma PushEffect(d: Daemon, id: ID, pushed: Nets)
    requires id in d.sessions
    ensures var e, v, nets := Next(d, PushReply(id, pushed)), d.sessions[id], Union(d.sessions[id].profileNets, pushed);
            && OthersKept(d, e, Session(id)) && e.known == d.known[id := nets]
            && ClaimOf(e, Session(id)) ==
               if VpnLive(v) && !TakenBeside(d, id, v.profileNets) && !TakenBeside(d, id, pushed)
               then Some(Claim(v.owner, v.name, nets)) else None
  {
    var nets := Union(d.sessions[id].profileNets, pushed);
    TakenByUnion(d, id, d.sessions[id].profileNets, pushed);
    PushIs(d, id, pushed, nets);
    LearnOrStop(d, id, nets, Next(d, PushReply(id, pushed)), TakenBeside(d, id, nets));
  }

  lemma PushIs(d: Daemon, id: ID, pushed: Nets, nets: Nets)
    requires id in d.sessions && nets == Union(d.sessions[id].profileNets, pushed)
    ensures Next(d, PushReply(id, pushed)) ==
            if TakenBeside(d, id, nets) then StopWithFinalError(Learn(d, id, nets), id) else Learn(d, id, nets)
  {
    ConflictIsTaken(d, Learn(d, id, nets), id, nets);
  }

  lemma LearnOrStop(d: Daemon, id: ID, nets: Nets, e: Daemon, taken: bool)
    requires id in d.sessions
    requires e == if taken then StopWithFinalError(Learn(d, id, nets), id) else Learn(d, id, nets)
    ensures var v := d.sessions[id];
            && OthersKept(d, e, Session(id)) && e.known == d.known[id := nets]
            && ClaimOf(e, Session(id)) == (if VpnLive(v) && !taken then Some(Claim(v.owner, v.name, nets)) else None)
            && id in e.sessions && e.sessions[id].status == (if taken then Failed else v.status)
            && (e.sessions[id].errFinal <==> taken || v.errFinal)
  {
  }

  /** The refusal is an error no later one replaces; a push that passes leaves the status as it is. */
  lemma RefusedPushIsFinal(d: Daemon, id: ID, pushed: Nets)
    requires id in d.sessions
    ensures var e, v := Next(d, PushReply(id, pushed)), d.sessions[id];
            var taken := TakenBeside(d, id, v.profileNets) || TakenBeside(d, id, pushed);
            && id in e.sessions && e.sessions[id].status == (if taken then Failed else v.status)
            && (e.sessions[id].errFinal <==> taken || v.errFinal)
  {
    var nets := Union(d.sessions[id].profileNets, pushed);
    TakenByUnion(d, id, d.sessions[id].profileNets, pushed);
    PushIs(d, id, pushed, nets);
    LearnOrStop(d, id, nets, Next(d, PushReply(id, pushed)), TakenBeside(d, id, nets));
  }

  /** What a replaced session still learns is only remembered. */
  lemma ReplacedPushEffect(d: Daemon, id: ID, nets: Nets)
    ensures var e := Next(d, ReplacedPush(id, nets));
            e.sessions == d.sessions && e.tunnels == d.tunnels && e.known == d.known[id := nets]
  {
  }

  /** A failure and the end of the process take the session down. */
  lemma FailEffect(d: Daemon, id: ID, final: bool)
    ensures var e := Next(d, FailVpn(id, final));
            && ClaimOf(e, Session(id)).None? && OthersKept(d, e, Session(id)) && e.known == d.known
            && (id in d.sessions ==>
                && id in e.sessions && (e.sessions[id].errFinal <==> d.sessions[id].errFinal || final)
                && e.sessions[id].status == if d.sessions[id].errFinal then d.sessions[id].status else Failed)
  {
  }

  lemma ReapEffect(d: Daemon, id: ID)
    ensures var e := Next(d, Reap(id)); id !in e.sessions && OthersKept(d, e, Session(id)) && e.known == d.known
  {
  }

  /** FATAL takes the session down unless a final error is on record, which already has. */
  lemma FatalEffect(d: Daemon, id: ID)
    ensures var e := Next(d, Fatal(id));
            && OthersKept(d, e, Session(id)) && e.known == d.known
            && (ClaimOf(e, Session(id)).Some? ==>
                d.sessions[id].errFinal && ClaimOf(e, Session(id)) == ClaimOf(d, Session(id)))
            && (id in d.sessions ==>
                && id in e.sessions && e.sessions[id].ended
                && e.sessions[id].status == if d.sessions[id].errFinal then d.sessions[id].status else Failed)
  {
  }

  /**
   * CONNECTED means connected; progress means connecting, unless the session is connected; EXITING means disconnected,
   * unless it has failed; other lines mean nothing. A session told to stop stays down, any other is up while it runs.
   */
  lemma StateEffect(d: Daemon, id: ID, line: StateLine)
    requires id in d.sessions
    ensures var e, v := Next(d, State(id, line)), d.sessions[id];
            && OthersKept(d, e, Session(id)) && e.known == d.known && id in e.sessions
            && (line == CONNECTED ==> e.sessions[id].status == Connected)
            && (line == PROGRESS ==> e.sessions[id].status == if v.status == Connected then Connected else Connecting)
            && (line == EXITING ==> e.sessions[id].status == if v.status == Failed then Failed else Disconnected)
            && (line == OTHER ==> e.sessions[id] == v)
            && ClaimOf(e, Session(id)) ==
               if !v.stopped && (line in {CONNECTED, PROGRESS}
                 || (line == OTHER && v.status in {Connecting, Connected}))
               then Some(Claim(v.owner, v.name, v.networks)) else None
  {
  }

  // ---- Tunnels ---------------------------------------------------------------------------

  /** A tunnel is its owner's; one from before owners were recorded is everybody's. */
  predicate Mine(d: Daemon, owner: Owner, id: ID) {
    id in d.tunnels && (d.tunnels[id].owner == owner || d.tunnels[id].owner == "legacy")
  }

  /**
   * A start brings the tunnel up exactly if it is the caller's and no other live connection shares a network with it.
   */
  lemma StartEffect(d: Daemon, owner: Owner, id: ID)
    ensures var e := Next(d, StartTunnel(owner, id));
            && OthersKept(d, e, Wire(id)) && e.known == d.known
            && ClaimOf(e, Wire(id)) ==
               if Mine(d, owner, id) && !TakenBeside(d, id, d.tunnels[id].nets)
               then Some(Claim(d.tunnels[id].owner, d.tunnels[id].name, d.tunnels[id].nets)) else ClaimOf(d, Wire(id))
  {
    if Mine(d, owner, id) {
      ConflictIsTaken(d, d, id, d.tunnels[id].nets);
    }
  }

  /** Stopping takes the caller's tunnel down, deleting takes it away; anyone else's request changes nothing. */
  lemma StopEffect(d: Daemon, owner: Owner, id: ID)
    ensures var e := Next(d, StopTunnel(owner, id));
            if Mine(d, owner, id)
            then ClaimOf(e, Wire(id)).None? && OthersKept(d, e, Wire(id)) && id in e.tunnels && e.known == d.known
            else e == d
  {
  }

  lemma DeleteEffect(d: Daemon, owner: Owner, id: ID)
    ensures var e := Next(d, DeleteTunnel(owner, id));
            if Mine(d, owner, id) then id !in e.tunnels && OthersKept(d, e, Wire(id)) && e.known == d.known else e == d
  {
  }

  /** The end of a Start leaves the tunnel up exactly if it succeeded; a lost device takes a connected tunnel down. */
  lemma FinishEffect(d: Daemon, id: ID, ok: bool)
    requires id in d.tunnels
    ensures var e, t := Next(d, Finish(id, ok)), d.tunnels[id];
            && OthersKept(d, e, Wire(id)) && e.known == d.known
            && ClaimOf(e, Wire(id)) == (if ok then Some(Claim(t.owner, t.name, t.nets)) else None)
            && e.tunnels[id].status == if ok then Connected else Failed
  {
  }

  lemma DeviceLostEffect(d: Daemon, id: ID)
    ensures var e := Next(d, DeviceLost(id));
            && OthersKept(d, e, Wire(id)) && e.known == d.known
            && ClaimOf(e, Wire(id)) ==
               if id in d.tunnels && d.tunnels[id].status == Connected then None else ClaimOf(d, Wire(id))
  {
  }

  /** An imported tunnel is down, and the importer's. */
  lemma ImportEffect(d: Daemon, owner: Owner, id: ID, name: string, nets: Nets)
    ensures var e := Next(d, ImportTunnel(owner, id, name, nets));
            && e.tunnels == d.tunnels[id := Tunnel(owner, name, Disconnected, nets)]
            && ClaimOf(e, Wire(id)).None? && OthersKept(d, e, Wire(id)) && e.known == d.known
  {
  }

  // ---- Over runs ---------------------------------------------------------------------------

  /** Told to stop, or gone. */
  predicate Stopped(d: Daemon, id: ID) {
    id in d.sessions ==> d.sessions[id].stopped
  }

  lemma StepStaysStopped(d: Daemon, id: ID, step: Step)
    requires Stopped(d, id) && !(step.ConnectVpn? && step.id == id)
    ensures Stopped(Next(d, step), id)
  {
  }

  /**
   * A session its owner disconnected stays down, whatever else happens, until a session of that id is started again.
   */
  lemma {:induction false} StaysDown(d: Daemon, id: ID, steps: seq<Step>)
    requires Stopped(d, id) && forall i :: 0 <= i < |steps| ==> !(steps[i].ConnectVpn? && steps[i].id == id)
    ensures ClaimOf(Run(d, steps), Session(id)).None?
    decreases |steps|
  {
    if steps != [] {
      StepStaysStopped(d, id, steps[0]);
      StaysDown(Next(d, steps[0]), id, steps[1..]);
    }
  }

  lemma {:induction false} DisconnectedStaysDown(d: Daemon, owner: Owner, id: ID, steps: seq<Step>)
    requires id in d.sessions && d.sessions[id].owner == owner
    requires forall i :: 0 <= i < |steps| ==> !(steps[i].ConnectVpn? && steps[i].id == id)
    ensures ClaimOf(Run(Next(d, DisconnectVpn(owner, id)), steps), Session(id)).None?
  {
    StaysDown(Next(d, DisconnectVpn(owner, id)), id, steps);
  }
}
