/** The daemon's maps of sessions and tunnels, changed in place (client/internal/daemon). */
module TunnelManager {
  import opened Options
  import opened NetSets
  import opened Exclusion

  /** who: None stands for another user's connection, whose name is not told. */
  datatype Refusal = Refusal(who: Option<string>, what: Shared)

  class Manager {
    var sessions: map<ID, Vpn>
    var known: map<ID, Nets>
    var tunnels: map<ID, Tunnel>

    ghost function View(): Daemon
      reads this
    {
      Daemon(sessions, known, tunnels)
    }

    constructor ()
      ensures View() == IDLE
    {
      sessions, known, tunnels := map[], map[], map[];
    }

    // ---- The conflict check -----------------------------------------------------

    ghost predicate Lists(out: seq<Claim>, except: ID, c: Conn)
      reads this
    {
      ClaimOf(View(), c).Some? && c.id != except && !ClaimOf(View(), c).value.nets.Empty() ==>
        ClaimOf(View(), c).value in out
    }

    ghost predicate IsListed(l: Claim, except: ID)
      reads this
    {
      exists c: Conn :: c.id != except && ClaimOf(View(), c) == Some(l)
    }

    method LiveSessions(except: ID) returns (out: seq<Claim>)
      ensures forall id :: Lists(out, except, Session(id))
      ensures forall i :: 0 <= i < |out| ==> IsListed(out[i], except)
    {
      out := [];
      var todo := sessions.Keys;
      while todo != {}
        invariant todo <= sessions.Keys
        invariant forall id :: id !in todo ==> Lists(out, except, Session(id))
        invariant forall i :: 0 <= i < |out| ==> IsListed(out[i], except)
        decreases |todo|
      {
        var id :| id in todo;
        todo := todo - {id};
        var s := sessions[id];
        if id != except && !s.stopped && Running(s.status) && !s.networks.Empty() {
          assert ClaimOf(View(), Session(id)) == Some(Claim(s.owner, s.name, s.networks));
          out := out + [Claim(s.owner, s.name, s.networks)];
        }
      }
    }

    method LiveNetworks(except: ID) returns (out: seq<Claim>)
      ensures forall c :: Lists(out, except, c)
      ensures forall i :: 0 <= i < |out| ==> IsListed(out[i], except)
    {
      out := LiveSessions(except);
      var todo := tunnels.Keys;
      while todo != {}
        invariant todo <= tunnels.Keys
        invariant forall id :: Lists(out, except, Session(id))
        invariant forall id :: id !in todo ==> Lists(out, except, Wire(id))
        invariant forall i :: 0 <= i < |out| ==> IsListed(out[i], except)
        decreases |todo|
      {
        var id :| id in todo;
        todo := todo - {id};
        var t := tunnels[id];
        if id != except && Running(t.status) {
          assert ClaimOf(View(), Wire(id)) == Some(Claim(t.owner, t.name, t.nets));
          out := out + [Claim(t.owner, t.name, t.nets)];
        }
      }
    }

    /** The refusal names a connection that does clash, and what both use, but only the owner's own by name. */
    ghost predicate Justified(r: Refusal, except: ID, owner: Owner, want: Nets)
      reads this
    {
      exists c :: Clash(View(), except, want, c) &&
                  var l := ClaimOf(View(), c).value;
                  r.who == (if l.owner == owner then Some(l.name) else None) && Explains(want, l.nets, r.what)
    }

    method FindConflict(except: ID, owner: Owner, want: Nets) returns (r: Option<Refusal>)
      ensures r.Some? <==> Conflict(View(), except, want)
      ensures r.Some? ==> Justified(r.value, except, owner, want)
    {
      if want.Empty() {
        return None;
      }
      var live := LiveNetworks(except);
      var i := 0;
      while i < |live|
        invariant 0 <= i <= |live|
        invariant forall k :: 0 <= k < i ==> !Overlap(want, live[k].nets)
      {
        var l := live[i];
        var what := OverlapLoop(want, l.nets);
        if what.Some? {
          assert IsListed(l, except);
          ghost var c: Conn :| c.id != except && ClaimOf(View(), c) == Some(l);
          assert Clash(View(), except, want, c);
          return Some(Refusal(if l.owner != owner then None else Some(l.name), what.value));
        }
        i := i + 1;
      }
      r := None;
      forall c ensures !Clash(View(), except, want, c) {
        assert Lists(live, except, c);
      }
    }

    // ---- OpenVPN sessions ---------------------------------------------------------

    method Stop(id: ID)
      requires id in sessions
      modifies this`sessions
      ensures View() == SetVpn(old(View()), id, old(sessions)[id].(stopped := true))
    {
      if !sessions[id].stopped {
        sessions := sessions[id := sessions[id].(stopped := true)];
      }
      assert sessions == old(sessions)[id := old(sessions)[id].(stopped := true)];
    }

    /** started: the profile could be written and the process launched. */
    method ConnectOpenVPN(owner: Owner, id: ID, name: string, profileNets: Nets, started: bool)
        returns (refused: Option<Refusal>, ok: bool)
      modifies this
      ensures View() == Next(old(View()), ConnectVpn(owner, id, name, profileNets, started))
      ensures refused.Some? <==> Conflict(StopOwn(old(View()), owner, id), id, Wanted(old(View()), id, profileNets))
      ensures ok <==> refused.None? && started
    {
      ok := false;
      if id in sessions && sessions[id].owner == owner {
        Stop(id);
      }
      var learnt := if id in known then known[id] else NOTHING;
      MergeIsUnion(profileNets, learnt);
      var want: Nets := MergeLoop(profileNets, learnt);
      refused := FindConflict(id, owner, want);
      if refused.Some? || !started {
        return;
      }
      sessions := sessions[id := Vpn(owner, name, Connecting, profileNets, profileNets, false, false, false)];
      ok := true;
    }

    method DisconnectOpenVPN(owner: Owner, id: ID) returns (found: bool)
      modifies this`sessions
      ensures View() == Next(old(View()), DisconnectVpn(owner, id))
      ensures found <==> OwnsVpn(old(View()), owner, id)
    {
      if id !in sessions || sessions[id].owner != owner {
        return false;
      }
      Stop(id);
      found := true;
    }

    method LearnNetworks(id: ID, nets: Nets)
      requires id in sessions
      modifies this`sessions, this`known
      ensures View() == Learn(old(View()), id, nets)
    {
      sessions := sessions[id := sessions[id].(networks := nets)];
      known := known[id := nets];
    }

    method SetFinalErrorAndStop(id: ID)
      requires id in sessions
      modifies this`sessions
      ensures View() == StopWithFinalError(old(View()), id)
    {
      sessions := sessions[id := sessions[id].(status := Failed, errFinal := true)];
      Stop(id);
      assert sessions == old(sessions)[id := sessions[id]];
    }

    method OnPushedNetworks(id: ID, pushed: Nets) returns (refused: Option<Refusal>)
      requires id in sessions
      modifies this`sessions, this`known
      ensures View() == Next(old(View()), PushReply(id, pushed))
      ensures refused.Some? <==> var nets := Union(old(sessions)[id].profileNets, pushed);
                                 Conflict(Learn(old(View()), id, nets), id, nets)
    {
      MergeIsUnion(sessions[id].profileNets, pushed);
      var nets: Nets := MergeLoop(sessions[id].profileNets, pushed);
      LearnNetworks(id, nets);
      refused := FindConflict(id, sessions[id].owner, nets);
      if refused.Some? {
        SetFinalErrorAndStop(id);
      }
    }

    method HandleState(id: ID, line: StateLine)
      requires id in sessions
      modifies this`sessions
      ensures View() == Next(old(View()), State(id, line))
    {
      var v := sessions[id];
      match line {
        case CONNECTED =>
          v := v.(status := Connected);
        case PROGRESS =>
          if v.status != Connected {
            v := v.(status := Connecting);
          }
        case EXITING =>
          if v.status != Failed {
            v := v.(status := Disconnected);
          }
          v := v.(ended := true);
        case OTHER =>
      }
      sessions := sessions[id := v];
    }

    // ---- WireGuard tunnels ----------------------------------------------------------

    method ConnectTunnel(owner: Owner, id: ID) returns (refused: Option<Refusal>, found: bool)
      modifies this`tunnels
      ensures View() == Next(old(View()), StartTunnel(owner, id))
      ensures found <==> OwnsTunnel(old(View()), owner, id)
      ensures refused.Some? <==> found && Conflict(old(View()), id, old(tunnels)[id].nets)
    {
      if id !in tunnels || (tunnels[id].owner != owner && tunnels[id].owner != LEGACY) {
        return None, false;
      }
      found := true;
      refused := FindConflict(id, owner, tunnels[id].nets);
      if refused.None? && tunnels[id].status != Connected && tunnels[id].status != Connecting {
        tunnels := tunnels[id := tunnels[id].(status := Connecting)];
      }
    }
  }
}
