/**
 * The lock together with the devices that use it (client/app_wgprofiles.go against server/internal/api/wgprofiles.go).
 */
module LeaseClients {
  import opened Options
  import opened Lease
  import opened LeaseTraces

  /**
   * up: devices with the tunnel up and the time of the UPDATE behind their last Ok. pending: devices whose claim
   * changed no row and awaits its second look, with the time of its UPDATE. freed: devices whose hold was ended since
   * their last Ok. mistaken: devices that came up on a second look without the profile.
   */
  datatype System = System(
    profile: Profile, up: map<DeviceID, int>, pending: map<DeviceID, int>, freed: set<DeviceID>,
      mistaken: set<DeviceID>, now: int)

  /** What becomes of a heartbeat. */
  datatype Answer = NotSent | ReplyLost | Answered | AuthRefused

  /**
   * Requests the client fires and forgets (releases), lost replies and admin requests are Server steps, at any later
   * time.
   */
  datatype Step =
    | Connect(at: int, user: UserID, device: DeviceID, name: Option<string>, delivered: bool, started: bool)
    | SecondLook(at: int, device: DeviceID, delivered: bool, started: bool)
    | Beat(at: int, user: UserID, device: DeviceID, tunnelUp: bool, answer: Answer)
    | Disconnect(at: int, device: DeviceID)
    | Server(at: int, req: Request)

  function ServerDo(s: System, req: Request, at: int): (System, Reply) {
    var (p, reply) := Do(s.profile, Event(at, req));
    (s.(profile := p,
        freed := if s.profile.holder.Some? && p.holder.None? then s.freed + {s.profile.holder.value.device}
          else s.freed,
        now := at), reply)
  }

  function Down(s: System, device: DeviceID): System {
    s.(up := s.up - {device}, mistaken := s.mistaken - {device})
  }

  /** since: the time of the UPDATE behind the Ok. */
  function Up(s: System, device: DeviceID, since: int): System {
    s.(up := s.up[device := since], freed := s.freed - {device},
       mistaken := if s.profile.HeldBy(device) then s.mistaken - {device} else s.mistaken + {device})
  }

  function Next(s: System, step: Step): System {
    match step
    case Connect(at, user, device, name, delivered, started) =>
      var (t, reply) := ServerDo(Down(s, device), ClaimReq(user, device, name), at);
      if reply == Again then t.(pending := t.pending[device := at])
      else if reply == Ok && delivered && started then Up(t, device, at) else t
    case SecondLook(at, device, delivered, started) =>
      var (t, reply) := ServerDo(s, LookReq(device), at);
      if device !in s.pending then t
      else
        var answered := t.(pending := t.pending - {device});
        if reply == Ok && delivered && started then Up(answered, device, s.pending[device]) else answered
    case Beat(at, user, device, tunnelUp, answer) =>
      var t := s.(now := at);
      if device !in s.up then t
      else if !tunnelUp || answer == AuthRefused then Down(t, device)
      else if answer == NotSent then t
      else
        var (u, reply) := ServerDo(s, HeartbeatReq(user, device), at);
        if answer == ReplyLost || reply == NeedsDevice then u
        else if reply == Ok then Up(u, device, at) else Down(u, device)
    case Disconnect(at, device) => Down(s.(now := at), device)
    case Server(at, req) => ServerDo(s, req, at).0
  }

  /** The profile is still this device's, with the UPDATE of its last Ok on record. */
  predicate Rightful(s: System, device: DeviceID)
    requires device in s.up
  {
    s.profile.HeldBy(device) && s.profile.holder.value.seen >= s.up[device]
  }

  predicate LostSinceOk(s: System, device: DeviceID)
    requires device in s.up
  {
    device in s.freed || device in s.mistaken || s.now > s.up[device] + TTL
  }

  /** A device that waits for its second look and holds the profile has its UPDATE on record. */
  ghost predicate PendingOnRecord(s: System) {
    forall d :: d in s.pending ==>
      s.pending[d] <= s.now && (s.profile.HeldBy(d) ==> s.profile.holder.value.seen >= s.pending[d])
  }

  ghost predicate UpRightly(s: System) {
    forall d :: d in s.up ==> s.up[d] <= s.now && (Rightful(s, d) || LostSinceOk(s, d))
  }

  /** Every device that is up or waits has sent its name. */
  predicate Named(s: System) {
    "" !in s.up && "" !in s.pending
  }

  ghost predicate Inv(s: System) {
    UpRightly(s) && PendingOnRecord(s) && Named(s)
  }

  lemma ServerKeepsInv(s: System, req: Request, at: int)
    requires Inv(s) && s.now <= at
    ensures Inv(ServerDo(s, req, at).0)
  {
  }

  lemma UpKeepsInv(s: System, device: DeviceID, since: int)
    requires Inv(s) && device != "" && since <= s.now
             && (s.profile.HeldBy(device) ==> s.profile.holder.value.seen >= since)
    ensures Inv(Up(s, device, since))
  {
    var u := Up(s, device, since);
    forall d | d in u.up ensures u.up[d] <= u.now && (Rightful(u, d) || LostSinceOk(u, d)) {
      if d != device {
        assert Rightful(s, d) || LostSinceOk(s, d);
      }
    }
  }

  lemma DownKeepsInv(s: System, device: DeviceID)
    requires Inv(s)
    ensures Inv(Down(s, device))
  {
    var t := Down(s, device);
    forall d | d in t.up ensures t.up[d] <= t.now && (Rightful(t, d) || LostSinceOk(t, d)) {
      assert Rightful(s, d) || LostSinceOk(s, d);
    }
  }

  lemma LaterKeepsInv(s: System, at: int)
    requires Inv(s) && s.now <= at
    ensures Inv(s.(now := at))
  {
    var t := s.(now := at);
    forall d | d in t.up ensures t.up[d] <= t.now && (Rightful(t, d) || LostSinceOk(t, d)) {
      assert Rightful(s, d) || LostSinceOk(s, d);
    }
  }

  lemma SecondLookKeepsInv(s: System, step: Step)
    requires Inv(s) && s.now <= step.at && step.SecondLook?
    ensures Inv(Next(s, step))
  {
    ServerKeepsInv(s, LookReq(step.device), step.at);
    var (t, reply) := ServerDo(s, LookReq(step.device), step.at);
    if step.device in s.pending {
      var answered := t.(pending := t.pending - {step.device});
      assert Inv(answered) by {
        assert answered.up == t.up && UpRightly(answered);
      }
      if reply == Ok && step.delivered && step.started {
        UpKeepsInv(answered, step.device, s.pending[step.device]);
      }
    }
  }

  lemma BeatKeepsInv(s: System, step: Step)
    requires Inv(s) && s.now <= step.at && step.Beat?
    ensures Inv(Next(s, step))
  {
    LaterKeepsInv(s, step.at);
    DownKeepsInv(s.(now := step.at), step.device);
    var req := HeartbeatReq(step.user, step.device);
    ServerKeepsInv(s, req, step.at);
    var (u, reply) := ServerDo(s, req, step.at);
    if reply == Ok {
      UpKeepsInv(u, step.device, step.at);
    }
    DownKeepsInv(u, step.device);
  }

  lemma NextKeepsInv(s: System, step: Step)
    requires Inv(s) && s.now <= step.at
    ensures Inv(Next(s, step)) && Next(s, step).now == step.at
  {
    match step
    case Connect(_, _, _, _, _, _) =>
    case SecondLook(_, _, _, _) => SecondLookKeepsInv(s, step);
    case Beat(_, _, _, _, _) => BeatKeepsInv(s, step);
    case Disconnect(at, device) =>
      LaterKeepsInv(s, at);
      DownKeepsInv(s.(now := at), device);
    case Server(at, req) => ServerKeepsInv(s, req, at);
  }

  function Run(s: System, steps: seq<Step>): System
    decreases |steps|
  {
    if steps == [] then s else Run(Next(s, steps[0]), steps[1..])
  }

  ghost predicate Ordered(now: int, steps: seq<Step>)
    decreases |steps|
  {
    steps != [] ==> now <= steps[0].at && Ordered(steps[0].at, steps[1..])
  }

  lemma {:induction false} RunKeepsInv(s: System, steps: seq<Step>)
    requires Inv(s) && Ordered(s.now, steps)
    ensures Inv(Run(s, steps))
    decreases |steps|
  {
    if steps != [] {
      NextKeepsInv(s, steps[0]);
      RunKeepsInv(Next(s, steps[0]), steps[1..]);
    }
  }

  /** A named device that is up without the profile takes its tunnel down at the next heartbeat that is answered. */
  lemma AnsweredBeatTearsDown(s: System, device: DeviceID, at: int, user: UserID, tunnelUp: bool)
    requires device != "" && device in s.up && !s.profile.HeldBy(device)
    ensures device !in Next(s, Beat(at, user, device, tunnelUp, Answered)).up
  {
  }

  /** When a device comes up by mistake, the lease of every other device that is up has ended. */
  lemma MistakenFindsNoneRightful(s: System, step: Step, other: DeviceID)
    requires Inv(s) && s.now <= step.at && step.SecondLook? && step.device in s.pending && step.delivered
             && step.started
    requires step.device in Next(s, step).mistaken && ServerDo(s, LookReq(step.device), step.at).1 == Ok
    requires other in s.up && other != step.device
    ensures LostSinceOk(Next(s, step), other)
  {
    assert Rightful(s, other) || LostSinceOk(s, other);
  }

  /**
   * Of two devices up at once, one had no Ok for more than the lease time, was freed, or came up on a second look
   * without the profile, and its next answered heartbeat ends it.
   */
  lemma {:induction false} TwoUpOneIsEnding(s: System, steps: seq<Step>, a: DeviceID, b: DeviceID)
    requires s.up == map[] && s.pending == map[] && Ordered(s.now, steps)
    requires a != b && a in Run(s, steps).up && b in Run(s, steps).up
    ensures exists d :: d in {a, b} && LostSinceOk(Run(s, steps), d) &&
                        forall at, user, tunnelUp :: d !in Next(Run(s, steps), Beat(at, user, d, tunnelUp, Answered)).up
  {
    RunKeepsInv(s, steps);
    var t := Run(s, steps);
    var d := if t.profile.HeldBy(a) then b else a;
    assert Rightful(t, d) || LostSinceOk(t, d);
    forall at, user, tunnelUp ensures d !in Next(t, Beat(at, user, d, tunnelUp, Answered)).up {
      AnsweredBeatTearsDown(t, d, at, user, tunnelUp);
    }
  }
}
