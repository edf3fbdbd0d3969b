/**
 * The lock on an assigned WireGuard profile (server/internal/api/wgprofiles.go). Times are whole seconds of the
 * database clock.
 */
module Lease {
  import opened Options

  type UserID = string
  type DeviceID = string

  const TTL := 180

  /** The holder columns; they are set and cleared together. */
  datatype Holder = Holder(user: UserID, device: DeviceID, name: string, since: int, seen: int)

  datatype Profile = Profile(holder: Option<Holder>, users: set<UserID>, shared: bool) {
    predicate HeldBy(device: DeviceID) {
      holder.Some? && holder.value.device == device
    }

    /** The `held` column: the claim is fresh. */
    predicate Held(now: int) {
      holder.Some? && holder.value.seen >= now - TTL
    }

    function Freed(): Profile {
      this.(holder := None)
    }
  }

  /** Again: the statement changed no row, so the handler looks at it before it answers. */
  datatype Reply = Ok | Again | NeedsDevice | Absent | InUse(holder: DeviceID) | Released | Conflict

  /** WHERE clause of the claim's UPDATE. */
  predicate Takes(p: Profile, now: int, device: DeviceID) {
    p.holder.None? || p.HeldBy(device) || p.holder.value.seen < now - TTL
  }

  /** The claim's UPDATE. name: the device name of an active installation, None when there is none. */
  function Claim(p: Profile, now: int, user: UserID, device: DeviceID, name: Option<string>): (Profile, Reply) {
    if device == "" then (p, NeedsDevice)
    else if user !in p.users then (p, Absent)
    else if name.None? then (p, NeedsDevice)
    else if Takes(p, now, device) then
      var since := if p.HeldBy(device) then p.holder.value.since else now;
      var q := p.(holder := Some(Holder(user, device, name.value, since, now)));
      (q, if q == p then Again else Ok)
    else (p, Again)
  }

  /** Its second look at the row. */
  function Look(p: Profile, now: int, device: DeviceID): Reply {
    if p.Held(now) && !p.HeldBy(device) then InUse(p.holder.value.device) else Ok
  }

  /** Both, with no other request in between; look is the time of the second statement. */
  function ClaimTwice(p: Profile, now: int, look: int, user: UserID, device: DeviceID, name: Option<string>)
    : (Profile, Reply)
  {
    var (q, reply) := Claim(p, now, user, device, name);
    (q, if reply == Again then Look(q, look, device) else reply)
  }

  /** A device is told Ok without getting the profile exactly when another's lease lapses between the two statements. */
  lemma OkWithoutHoldingIff(p: Profile, now: int, look: int, user: UserID, device: DeviceID, name: Option<string>)
    requires device != "" && user in p.users && name.Some?
    ensures var (q, reply) := ClaimTwice(p, now, look, user, device, name);
            reply == Ok && !q.HeldBy(device) <==>
            p.holder.Some? && p.holder.value.device != device && now <= p.holder.value.seen + TTL < look
  {
  }

  /** At one time a claim is a test and set: Ok to the holder it leaves, the holder's name to all others. */
  lemma ClaimAtOneTime(p: Profile, now: int, user: UserID, device: DeviceID, name: Option<string>)
    requires device != "" && user in p.users && name.Some?
    ensures var (q, reply) := ClaimTwice(p, now, now, user, device, name);
            && q.holder.Some? && reply == (if q.HeldBy(device) then Ok else InUse(q.holder.value.device))
            && (q.HeldBy(device) <==> Takes(p, now, device)) && (!q.HeldBy(device) ==> q == p)
  {
  }

  function Heartbeat(p: Profile, now: int, user: UserID, device: DeviceID): (Profile, Reply) {
    if device == "" then (p, NeedsDevice)
    else if user !in p.users then (p, Absent)
    else if p.HeldBy(device) then (p.(holder := Some(p.holder.value.(seen := now))), Ok)
    else if p.Held(now) then (p, InUse(p.holder.value.device))
    else (p, Released)
  }

  function Release(p: Profile, device: DeviceID): (Profile, Reply) {
    if device == "" then (p, NeedsDevice)
    else (if p.HeldBy(device) then p.Freed() else p, Ok)
  }

  function Assign(p: Profile, user: UserID): (Profile, Reply) {
    if !p.shared && exists other :: other in p.users && other != user then (p, Conflict)
    else (p.(users := p.users + {user}), Ok)
  }

  /** freeOk: the second statement, whose error is ignored, succeeds. */
  function Unassign(p: Profile, user: UserID, freeOk: bool): (Profile, Reply) {
    if user !in p.users then (p, Absent)
    else
      var q := p.(users := p.users - {user});
      (if freeOk && q.holder.Some? && q.holder.value.user == user then q.Freed() else q, Ok)
  }

  function SetShared(p: Profile, shared: bool): (Profile, Reply) {
    if !shared && |p.users| > 1 then (p, Conflict) else (p.(shared := shared), Ok)
  }

  // ---- What frees a profile, and what is free to take --------------------------------

  /** A release takes the profile from the device that holds it, and touches no other's. */
  lemma ReleaseTakesEffect(p: Profile, device: DeviceID)
    requires device != ""
    ensures var q := Release(p, device).0;
            && !q.HeldBy(device) && Release(p, device).1 == Ok
            && (p.HeldBy(device) ==> q.holder.None?) && (!p.HeldBy(device) ==> q == p)
            && q.users == p.users && q.shared == p.shared
  {
  }

  /** A device without a name is told so, and releases nothing. */
  lemma NamelessReleasesNothing(p: Profile)
    ensures Release(p, "") == (p, NeedsDevice)
  {
  }

  /** The holder of q, since and seen now. */
  predicate TakenBy(q: Profile, user: UserID, device: DeviceID, name: string, now: int) {
    q.holder.Some? &&
    var h := q.holder.value;
    h.user == user && h.device == device && h.name == name && h.since == now && h.seen == now
  }

  /** Whoever is assigned and has an active, named device gets a free profile at once. */
  lemma FreeIsClaimable(p: Profile, now: int, user: UserID, device: DeviceID, name: string)
    requires p.holder.None? && user in p.users && device != ""
    ensures var (q, reply) := Claim(p, now, user, device, Some(name));
            reply == Ok && TakenBy(q, user, device, name, now) && q.users == p.users && q.shared == p.shared
  {
  }

  /** A claim without a device, of an unassigned user, or of an inactive device is refused and changes nothing. */
  lemma ClaimsRefused(p: Profile, now: int, user: UserID, device: DeviceID, name: Option<string>)
    requires device == "" || user !in p.users || name.None?
    ensures Claim(p, now, user, device, name) ==
            (p, if device != "" && user !in p.users then Absent else NeedsDevice)
    ensures forall look :: ClaimTwice(p, now, look, user, device, name) == Claim(p, now, user, device, name)
  {
  }

  /** A renewed claim keeps the time since which the profile is held. */
  lemma RenewalKeepsSince(p: Profile, now: int, user: UserID, device: DeviceID, name: string)
    requires p.HeldBy(device) && user in p.users && device != ""
    ensures var q := Claim(p, now, user, device, Some(name)).0;
            && q.HeldBy(device) && q.holder.value.seen == now && q.holder.value.since == p.holder.value.since
            && q.holder.value.user == user && q.holder.value.name == name
  {
  }

  /**
   * A heartbeat renews for the holder, tells others whose the profile is while it is fresh, and else that it is
   * released.
   */
  lemma HeartbeatAnswers(p: Profile, now: int, user: UserID, device: DeviceID)
    requires device != "" && user in p.users
    ensures var (q, reply) := Heartbeat(p, now, user, device);
            && (p.HeldBy(device) ==> reply == Ok && q == p.(holder := Some(p.holder.value.(seen := now))))
            && (!p.HeldBy(device) ==> q == p)
            && (!p.HeldBy(device) && p.holder.Some? && now <= p.holder.value.seen + TTL ==>
                  reply == InUse(p.holder.value.device))
            && (!p.HeldBy(device) && (p.holder.Some? ==> now > p.holder.value.seen + TTL) ==> reply == Released)
  {
  }

  lemma HeartbeatsRefused(p: Profile, now: int, user: UserID, device: DeviceID)
    requires device == "" || user !in p.users
    ensures Heartbeat(p, now, user, device) == (p, if device == "" then NeedsDevice else Absent)
  {
  }

  /** A user is assigned exactly if the profile is shared or nobody else has it, and then nothing else changes. */
  lemma AssignIff(p: Profile, user: UserID)
    ensures var (q, reply) := Assign(p, user);
            && (reply == Ok <==> p.shared || p.users <= {user})
            && q == (if reply == Ok then p.(users := p.users + {user}) else p)
            && (reply != Ok ==> reply == Conflict)
  {
  }

  /** Sharing ends exactly if at most one user is assigned, and begins always. */
  lemma SharingIff(p: Profile, shared: bool)
    ensures var (q, reply) := SetShared(p, shared);
            && (reply == Ok <==> shared || |p.users| <= 1)
            && q == (if reply == Ok then p.(shared := shared) else p)
            && (reply != Ok ==> reply == Conflict)
  {
  }

  /** Unassigning takes the user out, and the profile from that user if the second statement succeeds. */
  lemma UnassignTakesEffect(p: Profile, user: UserID, freeOk: bool)
    ensures var (q, reply) := Unassign(p, user, freeOk);
            && user !in q.users && (forall u :: u != user ==> (u in q.users <==> u in p.users)) && q.shared == p.shared
            && (reply == Ok <==> user in p.users) && (reply != Ok ==> reply == Absent && q == p)
            && (reply == Ok && freeOk && p.holder.Some? && p.holder.value.user == user ==> q.holder.None?)
            && (reply == Ok && !(freeOk && p.holder.Some? && p.holder.value.user == user) ==> q.holder == p.holder)
  {
  }

  // ---- The handlers on the row ------------------------------------------------

  class Row {
    var holder: Option<Holder>
    var users: set<UserID>
    var shared: bool

    ghost function Now(): Profile
      reads this
    {
      Profile(holder, users, shared)
    }

    constructor (shared: bool)
      ensures Now() == Profile(None, {}, shared)
    {
      holder := None;
      users := {};
      this.shared := shared;
    }

    /** Up to the UPDATE, which MySQL answers with whether the row changed. */
    method TakeProfile(now: int, user: UserID, device: DeviceID, name: Option<string>) returns (reply: Reply)
      modifies this
      ensures (Now(), reply) == Claim(old(Now()), now, user, device, name)
    {
      if device == "" {
        return NeedsDevice;
      }
      if user !in users {
        return Absent;
      }
      if name.None? {
        return NeedsDevice;
      }
      var changed := false;
      if holder.None? || holder.value.device == device || holder.value.seen < now - TTL {
        var since := if holder.Some? && holder.value.device == device then holder.value.since else now;
        var taken := Some(Holder(user, device, name.value, since, now));
        changed := taken != holder;
        holder := taken;
      }
      reply := if changed then Ok else Again;
    }

    method LookAgain(now: int, device: DeviceID) returns (reply: Reply)
      ensures reply == Look(Now(), now, device)
    {
      if holder.None? || holder.value.seen < now - TTL || holder.value.device == device {
        return Ok;
      }
      reply := InUse(holder.value.device);
    }

    /** The handler when no other request comes between its two statements. */
    method ClaimProfile(now: int, look: int, user: UserID, device: DeviceID, name: Option<string>)
        returns (reply: Reply)
      modifies this
      ensures (Now(), reply) == ClaimTwice(old(Now()), now, look, user, device, name)
    {
      reply := TakeProfile(now, user, device, name);
      if reply == Again {
        reply := LookAgain(look, device);
      }
    }

    method HeartbeatProfile(now: int, user: UserID, device: DeviceID) returns (reply: Reply)
      modifies this
      ensures (Now(), reply) == Heartbeat(old(Now()), now, user, device)
    {
      if device == "" {
        return NeedsDevice;
      }
      if user !in users {
        return Absent;
      }
      if holder.Some? && holder.value.device == device {
        holder := Some(holder.value.(seen := now));
      }
      if holder.Some? && holder.value.device == device {
        return Ok;
      }
      if holder.Some? && holder.value.seen >= now - TTL {
        return InUse(holder.value.device);
      }
      reply := Released;
    }

    method ReleaseProfile(device: DeviceID) returns (reply: Reply)
      modifies this
      ensures (Now(), reply) == Release(old(Now()), device)
    {
      if device == "" {
        return NeedsDevice;
      }
      if holder.Some? && holder.value.device == device {
        holder := None;
      }
      reply := Ok;
    }

    method AdminRelease()
      modifies this
      ensures Now() == old(Now()).Freed()
    {
      holder := None;
    }

    method AssignUser(user: UserID) returns (reply: Reply)
      modifies this
      ensures (Now(), reply) == Assign(old(Now()), user)
    {
      if !shared && exists other :: other in users && other != user {
        return Conflict;
      }
      users := users + {user};
      reply := Ok;
    }

    method UnassignUser(user: UserID, freeOk: bool) returns (reply: Reply)
      modifies this
      ensures (Now(), reply) == Unassign(old(Now()), user, freeOk)
    {
      if user !in users {
        return Absent;
      }
      users := users - {user};
      if freeOk && holder.Some? && holder.value.user == user {
        holder := None;
      }
      reply := Ok;
    }

    method UpdateSharing(to: bool) returns (reply: Reply)
      modifies this
      ensures (Now(), reply) == SetShared(old(Now()), to)
    {
      if !to && |users| > 1 {
        return Conflict;
      }
      shared := to;
      reply := Ok;
    }
  }
}

/** Traces of requests on one profile; the two statements of a claim are events of their own. */
module LeaseTraces {
  import opened Options
  import opened Lease

  datatype Request =
    | ClaimReq(user: UserID, device: DeviceID, name: Option<string>)
    | LookReq(device: DeviceID)
    | HeartbeatReq(user: UserID, device: DeviceID)
    | ReleaseReq(device: DeviceID)
    | AdminReleaseReq
    | AssignReq(user: UserID)
    | UnassignReq(user: UserID, freeOk: bool)
    | SharedReq(shared: bool)

  datatype Event = Event(now: int, req: Request)

  function Do(p: Profile, e: Event): (Profile, Reply) {
    match e.req
    case ClaimReq(user, device, name) => Claim(p, e.now, user, device, name)
    case LookReq(device) => (p, Look(p, e.now, device))
    case HeartbeatReq(user, device) => Heartbeat(p, e.now, user, device)
    case ReleaseReq(device) => Release(p, device)
    case AdminReleaseReq => (p.Freed(), Ok)
    case AssignReq(user) => Assign(p, user)
    case UnassignReq(user, freeOk) => Unassign(p, user, freeOk)
    case SharedReq(shared) => SetShared(p, shared)
  }

  /** The row before event i. */
  function At(p: Profile, tr: seq<Event>, i: nat): Profile
    requires i <= |tr|
  {
    if i == 0 then p else Do(At(p, tr, i - 1), tr[i - 1]).0
  }

  ghost predicate Monotone(tr: seq<Event>) {
    forall i, j :: 0 <= i <= j < |tr| ==> tr[i].now <= tr[j].now
  }

  predicate Asks(req: Request, device: DeviceID) {
    (req.ClaimReq? && req.device == device) || (req.HeartbeatReq? && req.device == device)
  }

  /** Event i gives device the profile for the next TTL seconds. */
  ghost predicate Grants(p: Profile, tr: seq<Event>, i: nat, device: DeviceID)
    requires i < |tr|
  {
    Asks(tr[i].req, device) && Do(At(p, tr, i), tr[i]).1 in {Ok, Again} && At(p, tr, i + 1).HeldBy(device)
  }

  /** Event k takes the profile from device without giving it to another. */
  ghost predicate Frees(p: Profile, tr: seq<Event>, k: nat, device: DeviceID)
    requires k < |tr|
  {
    At(p, tr, k).HeldBy(device) && At(p, tr, k + 1).holder.None?
  }

  /** Only a release by the holder, an admin release or an unassignment of the holder's user frees a profile. */
  lemma {:induction false} FreedOnlyOnRequest(p: Profile, tr: seq<Event>, k: nat, device: DeviceID)
    requires k < |tr| && Frees(p, tr, k, device)
    ensures match tr[k].req
            case ReleaseReq(d) => d == device
            case AdminReleaseReq => true
            case UnassignReq(user, freeOk) => freeOk && At(p, tr, k).holder.value.user == user
            case _ => false
  {
  }

  lemma {:induction false} GrantTakesHold(p: Profile, tr: seq<Event>, i: nat, device: DeviceID)
    requires i < |tr| && Grants(p, tr, i, device)
    ensures At(p, tr, i + 1).HeldBy(device) && At(p, tr, i + 1).holder.value.seen == tr[i].now
  {
  }

  ghost predicate FreedBetween(p: Profile, tr: seq<Event>, i: nat, j: nat, device: DeviceID)
    requires j <= |tr|
  {
    exists k: nat :: i < k < j && Frees(p, tr, k, device)
  }

  /** A device seen at t holds on, was freed, or its lease has run out. */
  lemma {:induction false} HoldsFreedOrLapsed(p: Profile, tr: seq<Event>, i: nat, j: nat, device: DeviceID, t: int)
    requires Monotone(tr) && i < j <= |tr| && At(p, tr, i + 1).HeldBy(device) && t <= At(p, tr, i + 1).holder.value.seen
    requires t <= tr[i].now
    ensures || (At(p, tr, j).HeldBy(device) && At(p, tr, j).holder.value.seen >= t)
            || FreedBetween(p, tr, i, j, device)
            || tr[j - 1].now > t + TTL
  {
    if j > i + 1 {
      HoldsFreedOrLapsed(p, tr, i, j - 1, device, t);
      var before, after := At(p, tr, j - 1), At(p, tr, j);
      if before.HeldBy(device) && before.holder.value.seen >= t {
        if after.holder.None? {
          assert Frees(p, tr, j - 1, device);
        }
      } else if FreedBetween(p, tr, i, j - 1, device) {
        var k: nat :| i < k < j - 1 && Frees(p, tr, k, device);
        assert Frees(p, tr, k, device);
      } else {
        assert tr[j - 2].now <= tr[j - 1].now;
      }
    }
  }

  /**
   * Lease exclusion: the intervals [t, t + TTL] granted to two devices never meet unless the earlier one was freed in
   * between.
   */
  lemma Exclusion(p: Profile, tr: seq<Event>, i: nat, j: nat, first: DeviceID, second: DeviceID)
    requires Monotone(tr) && i < j < |tr| && first != second
    requires Grants(p, tr, i, first) && Grants(p, tr, j, second)
    ensures tr[i].now + TTL < tr[j].now || FreedBetween(p, tr, i, j, first)
  {
    GrantTakesHold(p, tr, i, first);
    HoldsFreedOrLapsed(p, tr, i, j, first, tr[i].now);
    if tr[j - 1].now > tr[i].now + TTL {
      assert tr[j - 1].now <= tr[j].now;
    }
  }

  /** Without the freeing the bound is tight: the profile can change hands one second after the lease. */
  lemma TakeoverAfterLapse(p: Profile, now: int, user: UserID, device: DeviceID, name: string)
    requires p.holder.Some? && device != "" && user in p.users && !p.HeldBy(device)
    ensures Claim(p, now, user, device, Some(name)).1 == Ok <==> now > p.holder.value.seen + TTL
  {
  }

  /**
   * A claim whose second look says Ok got the profile, or the holder its UPDATE found was freed or lapsed before the
   * look.
   */
  lemma {:induction false} OkByLook(p: Profile, tr: seq<Event>, i: nat, k: nat, device: DeviceID, other: DeviceID)
    requires Monotone(tr) && i < k < |tr| && other != device && At(p, tr, i).HeldBy(other)
             && At(p, tr, i).holder.value.seen <= tr[i].now
    requires tr[i].req.ClaimReq? && tr[i].req.device == device && Do(At(p, tr, i), tr[i]).1 == Again
    requires tr[k].req == LookReq(device) && Do(At(p, tr, k), tr[k]).1 == Ok
    ensures || At(p, tr, k).HeldBy(device)
            || FreedBetween(p, tr, i, k, other)
            || tr[k].now > At(p, tr, i).holder.value.seen + TTL
  {
    var t := At(p, tr, i).holder.value.seen;
    assert At(p, tr, i + 1) == At(p, tr, i);
    HoldsFreedOrLapsed(p, tr, i, k, other, t);
    assert tr[k - 1].now <= tr[k].now;
  }

  // ---- Stability ------------------------------------------------------------------

  /** Every claim of another device in between comes within TTL of an accepted renewal. */
  ghost predicate RenewedInTime(p: Profile, tr: seq<Event>, i: nat, j: nat, device: DeviceID)
    requires j <= |tr|
  {
    forall k: nat :: i < k < j && OtherClaims(tr, k, device) ==> InTime(p, tr, i, k, device)
  }

  ghost predicate OtherClaims(tr: seq<Event>, k: nat, device: DeviceID)
    requires k < |tr|
  {
    tr[k].req.ClaimReq? && tr[k].req.device != device
  }

  ghost predicate InTime(p: Profile, tr: seq<Event>, i: nat, k: nat, device: DeviceID)
    requires k < |tr|
  {
    exists m: nat :: i <= m < k && Grants(p, tr, m, device) && tr[k].now <= tr[m].now + TTL
  }

  lemma RenewedSoFar(p: Profile, tr: seq<Event>, i: nat, j: nat, device: DeviceID)
    requires i < j <= |tr| && !FreedBetween(p, tr, i, j, device) && RenewedInTime(p, tr, i, j, device)
    ensures !FreedBetween(p, tr, i, j - 1, device) && RenewedInTime(p, tr, i, j - 1, device)
    ensures i < j - 1 ==> !Frees(p, tr, j - 1, device)
  {
    assert forall k: nat :: i < k < j - 1 && Frees(p, tr, k, device) ==> k < j;
  }

  /** The device holds, last seen between t and now. */
  predicate SeenSince(q: Profile, device: DeviceID, t: int, now: int) {
    q.HeldBy(device) && t <= q.holder.value.seen <= now
  }

  /** u: the time of a renewal reflected in the row, recent for a claim of another device. */
  lemma StaysForOneMore(p: Profile, tr: seq<Event>, j: nat, device: DeviceID, t: int, u: int)
    requires Monotone(tr) && 1 < j <= |tr| && !Frees(p, tr, j - 1, device)
    requires SeenSince(At(p, tr, j - 1), device, t, tr[j - 2].now)
             && SeenSince(At(p, tr, j - 1), device, u, tr[j - 2].now)
    requires OtherClaims(tr, j - 1, device) ==> tr[j - 1].now <= u + TTL
    ensures SeenSince(At(p, tr, j), device, t, tr[j - 1].now)
  {
    var q, e := At(p, tr, j - 1), tr[j - 1];
    assert At(p, tr, j) == Do(q, e).0;
    assert tr[j - 2].now <= e.now;
  }

  lemma RecentGrant(p: Profile, tr: seq<Event>, i: nat, m: nat, j: nat, device: DeviceID) returns (n: nat)
    requires i <= m < j - 1 < |tr| && Grants(p, tr, m, device) && RenewedInTime(p, tr, i, j, device)
    ensures i <= n < j - 1 && Grants(p, tr, n, device)
    ensures OtherClaims(tr, j - 1, device) ==> tr[j - 1].now <= tr[n].now + TTL
  {
    n := m;
    if OtherClaims(tr, j - 1, device) {
      assert InTime(p, tr, i, j - 1, device);
      n :| i <= n < j - 1 && Grants(p, tr, n, device) && tr[j - 1].now <= tr[n].now + TTL;
    }
  }

  /** The device still holds after event j - 1, and the grant of event m is reflected in holder_seen. */
  lemma {:induction false} HoldsWhileRenewed(p: Profile, tr: seq<Event>, i: nat, m: nat, j: nat, device: DeviceID)
    requires Monotone(tr) && i <= m < j <= |tr| && Grants(p, tr, i, device) && Grants(p, tr, m, device)
    requires !FreedBetween(p, tr, i, j, device) && RenewedInTime(p, tr, i, j, device)
    ensures SeenSince(At(p, tr, j), device, tr[m].now, tr[j - 1].now)
    decreases j, 1
  {
    if m == j - 1 {
      GrantTakesHold(p, tr, m, device);
    } else {
      var n := RecentGrant(p, tr, i, m, j, device);
      HoldsOneMore(p, tr, i, m, j, device, n);
    }
  }

  /** n: a recent grant for event j - 1. */
  lemma {:induction false} HoldsOneMore(p: Profile, tr: seq<Event>, i: nat, m: nat, j: nat, device: DeviceID, n: nat)
    requires Monotone(tr) && i <= m < j - 1 < |tr| && Grants(p, tr, i, device) && Grants(p, tr, m, device)
    requires !FreedBetween(p, tr, i, j, device) && RenewedInTime(p, tr, i, j, device)
    requires i <= n < j - 1 && Grants(p, tr, n, device)
             && (OtherClaims(tr, j - 1, device) ==> tr[j - 1].now <= tr[n].now + TTL)
    ensures SeenSince(At(p, tr, j), device, tr[m].now, tr[j - 1].now)
    decreases j, 0
  {
    RenewedSoFar(p, tr, i, j, device);
    assert SeenSince(At(p, tr, j - 1), device, tr[m].now, tr[j - 2].now) by {
      HoldsWhileRenewed(p, tr, i, m, j - 1, device);
    }
    assert SeenSince(At(p, tr, j - 1), device, tr[n].now, tr[j - 2].now) by {
      HoldsWhileRenewed(p, tr, i, n, j - 1, device);
    }
    StaysForOneMore(p, tr, j, device, tr[m].now, tr[n].now);
  }

  /**
   * While a holder's renewals are accepted at most TTL apart and nobody frees it, every other device's claim is
   * refused.
   */
  lemma OthersAreRefused(p: Profile, tr: seq<Event>, i: nat, k: nat, device: DeviceID)
    requires Monotone(tr) && i < k < |tr| && Grants(p, tr, i, device)
    requires !FreedBetween(p, tr, i, k, device) && RenewedInTime(p, tr, i, k, device) && InTime(p, tr, i, k, device)
    requires Tries(tr[k].req, device)
    ensures At(p, tr, k).HeldBy(device) && At(p, tr, k + 1) == At(p, tr, k)
    ensures Refused(tr[k].req, Do(At(p, tr, k), tr[k]).1, device)
  {
    var m: nat :| i <= m < k && Grants(p, tr, m, device) && tr[k].now <= tr[m].now + TTL;
    HoldsWhileRenewed(p, tr, i, m, k, device);
  }

  /** One of the two statements of another device's claim. */
  predicate Tries(req: Request, device: DeviceID) {
    (req.ClaimReq? || req.LookReq?) && req.device != device
  }

  /** The UPDATE changes no row and the second look names the holder. */
  predicate Refused(req: Request, reply: Reply, device: DeviceID) {
    if req.LookReq? then reply == InUse(device) else reply in {Again, Absent, NeedsDevice}
  }

  /** A heartbeat never moves the profile, and is answered Ok exactly for the holder's device. */
  lemma HeartbeatKeepsHolder(p: Profile, now: int, user: UserID, device: DeviceID)
    ensures var (q, reply) := Heartbeat(p, now, user, device);
            && (p.holder.Some? <==> q.holder.Some?)
            && (p.holder.Some? ==> q.holder.value == p.holder.value.(seen := q.holder.value.seen))
            && (reply == Ok <==> device != "" && user in p.users && p.HeldBy(device))
  {
  }

  const PERIOD := 45

  /** Renewals are tried every PERIOD seconds, the k-th accepted when accepted[k]. */
  ghost predicate CoveredAt(accepted: seq<bool>, t: int) {
    exists k: nat :: k < |accepted| && accepted[k] && PERIOD * k <= t <= PERIOD * k + TTL
  }

  ghost predicate FourLost(accepted: seq<bool>, k: nat) {
    k + 4 < |accepted| && !accepted[k + 1] && !accepted[k + 2] && !accepted[k + 3] && !accepted[k + 4]
  }

  lemma LastAccepted(accepted: seq<bool>, n: nat) returns (k: nat)
    requires n < |accepted| && accepted[0] && forall k: nat :: !FourLost(accepted, k)
    ensures k <= n <= k + 3 && accepted[k]
  {
    if accepted[n] {
      k := n;
    } else if accepted[n - 1] {
      k := n - 1;
    } else if accepted[n - 2] {
      k := n - 2;
    } else {
      k := n - 3;
      assert n >= 4 ==> !FourLost(accepted, (n - 4) as nat);
    }
  }

  /** The lease stays fresh at every moment up to the next renewal exactly when no four renewals in a row are lost. */
  lemma ThreeLostRenewalsTolerated(accepted: seq<bool>)
    requires accepted != [] && accepted[0]
    ensures (forall t :: 0 <= t < PERIOD * |accepted| ==> CoveredAt(accepted, t)) <==>
            (forall k: nat :: !FourLost(accepted, k))
  {
    if forall k: nat :: !FourLost(accepted, k) {
      forall t | 0 <= t < PERIOD * |accepted| ensures CoveredAt(accepted, t) {
        var k := LastAccepted(accepted, t / PERIOD);
        assert accepted[k] && PERIOD * k <= t <= PERIOD * k + TTL;
      }
    } else {
      var k: nat :| FourLost(accepted, k);
      var t := PERIOD * (k + 4) + 1;
      forall m: nat | m < |accepted| && accepted[m] ensures !(PERIOD * m <= t <= PERIOD * m + TTL) {
      }
      assert !CoveredAt(accepted, t);
    }
  }

  /**
   * The device's renewals, tried every PERIOD seconds from the grant of event i, show up in the trace when they are
   * accepted.
   */
  ghost predicate Renews(p: Profile, tr: seq<Event>, i: nat, device: DeviceID, accepted: seq<bool>)
    requires i < |tr|
  {
    && accepted != [] && accepted[0] && Grants(p, tr, i, device)
    && forall k: nat :: 0 < k < |accepted| && accepted[k] ==> GrantsAt(p, tr, device, tr[i].now + PERIOD * k)
  }

  ghost predicate GrantsAt(p: Profile, tr: seq<Event>, device: DeviceID, t: int) {
    exists m: nat :: m < |tr| && Grants(p, tr, m, device) && tr[m].now == t
  }

  /** Of another device's claim: the last accepted renewal before it is recent. */
  lemma ClaimIsInTime(p: Profile, tr: seq<Event>, i: nat, k: nat, device: DeviceID, accepted: seq<bool>)
    requires Monotone(tr) && i < k < |tr| && Renews(p, tr, i, device, accepted)
    requires forall m: nat :: !FourLost(accepted, m)
    requires tr[k].now <= tr[i].now + PERIOD * |accepted|
    ensures InTime(p, tr, i, k, device)
  {
    var d := tr[k].now - tr[i].now;
    if d <= TTL {
      assert Grants(p, tr, i, device);
    } else {
      var a := LastAccepted(accepted, (d - 1) / PERIOD);
      assert GrantsAt(p, tr, device, tr[i].now + PERIOD * a);
      var m: nat :| m < |tr| && Grants(p, tr, m, device) && tr[m].now == tr[i].now + PERIOD * a;
      assert i <= m < k;
    }
  }

  /** While no four renewals in a row are lost and nobody frees the profile, every other device's claim is refused. */
  lemma ThreeLostRenewalsKeepProfile(p: Profile, tr: seq<Event>, i: nat, k: nat, device: DeviceID, accepted: seq<bool>)
    requires Monotone(tr) && i < k < |tr| && Renews(p, tr, i, device, accepted)
    requires forall m: nat :: !FourLost(accepted, m)
    requires !FreedBetween(p, tr, i, k, device) && tr[k].now <= tr[i].now + PERIOD * |accepted|
    requires Tries(tr[k].req, device)
    ensures At(p, tr, k).HeldBy(device) && At(p, tr, k + 1) == At(p, tr, k)
    ensures Refused(tr[k].req, Do(At(p, tr, k), tr[k]).1, device)
  {
    forall other: nat | i < other <= k ensures InTime(p, tr, i, other, device) {
      assert tr[other].now <= tr[k].now;
      ClaimIsInTime(p, tr, i, other, device, accepted);
    }
    OthersAreRefused(p, tr, i, k, device);
  }

  /** After four lost ones another device can have it before the fifth. */
  lemma FourLostRenewalsLoseProfile(p: Profile, t: int, user: UserID, device: DeviceID, other: UserID, rival: DeviceID,
      name: string)
    requires p.holder.None? && user in p.users && other in p.users && device != "" && rival != "" && device != rival
    ensures var accepted := [true, false, false, false, false];
            var tr := [Event(t, ClaimReq(user, device, Some(name))),
              Event(t + PERIOD * 4 + 1, ClaimReq(other, rival, Some(name)))];
            && Monotone(tr) && Renews(p, tr, 0, device, accepted) && tr[1].now <= t + PERIOD * |accepted|
            && FourLost(accepted, 0) && Grants(p, tr, 1, rival)
  {
    var tr := [Event(t, ClaimReq(user, device, Some(name))),
      Event(t + PERIOD * 4 + 1, ClaimReq(other, rival, Some(name)))];
    assert At(p, tr, 0) == p;
    assert At(p, tr, 1) == Do(p, tr[0]).0;
  }

  // ---- After a freeing ------------------------------------------------------------------

  /** What ends a hold at once. */
  predicate Ends(p: Profile, req: Request) {
    match req
    case ReleaseReq(device) => device != "" && p.HeldBy(device)
    case AdminReleaseReq => true
    case UnassignReq(user, freeOk) => freeOk && user in p.users && p.holder.Some? && p.holder.value.user == user
    case _ => false
  }

  /**
   * After a holder's release, an admin release, or the unassignment of the holder's user, the next claim of any
   * assigned, named device is answered Ok and takes hold, at whatever time it comes.
   */
  lemma FreedIsClaimable(p: Profile, e: Event, now: int, user: UserID, device: DeviceID, name: string)
    requires Ends(p, e.req) && user in Do(p, e).0.users && device != ""
    ensures var (q, reply) := Do(Do(p, e).0, Event(now, ClaimReq(user, device, Some(name))));
            reply == Ok && TakenBy(q, user, device, name, now)
  {
    FreeIsClaimable(Do(p, e).0, now, user, device, name);
  }

  // ---- What every trace keeps ---------------------------------------------------------

  /** holder times are ordered, the holder's user is assigned, an unshared profile has one user at most. */
  ghost predicate Sound(p: Profile, now: int) {
    && (p.holder.Some? ==> p.holder.value.since <= p.holder.value.seen <= now && p.holder.value.user in p.users)
    && (!p.shared ==> |p.users| <= 1)
  }

  lemma SmallSet(s: set<UserID>, u: UserID)
    requires forall other :: other in s ==> other == u
    ensures |s + {u}| == 1
  {
    assert s + {u} == {u};
  }

  lemma AssignKeepsSound(p: Profile, now: int, user: UserID)
    requires Sound(p, now)
    ensures Sound(Assign(p, user).0, now)
  {
    if Assign(p, user).1 == Ok && !p.shared {
      SmallSet(p.users, user);
    }
  }

  lemma UnassignKeepsSoundIff(p: Profile, now: int, user: UserID, freeOk: bool)
    requires Sound(p, now)
    ensures Sound(Unassign(p, user, freeOk).0, now) <==> freeOk || p.holder.None? || p.holder.value.user != user
  {
  }

  /** An event keeps this exactly unless it unassigns the holder's user and then fails to free the profile. */
  lemma StepKeepsSoundIff(p: Profile, before: int, e: Event)
    requires Sound(p, before) && before <= e.now
    ensures Sound(Do(p, e).0, e.now) <==>
            !(e.req.UnassignReq? && !e.req.freeOk && p.holder.Some? && p.holder.value.user == e.req.user)
  {
    match e.req
    case AssignReq(user) => AssignKeepsSound(p, e.now, user);
    case UnassignReq(user, freeOk) => UnassignKeepsSoundIff(p, e.now, user, freeOk);
    case ClaimReq(_, _, _) =>
    case LookReq(_) =>
    case HeartbeatReq(_, _) =>
    case ReleaseReq(_) =>
    case AdminReleaseReq =>
    case SharedReq(_) =>
  }

  lemma {:induction false} TracesStaySound(p: Profile, start: int, tr: seq<Event>, i: nat)
    requires i <= |tr| && Monotone(tr) && Sound(p, start) && (tr != [] ==> start <= tr[0].now)
    requires forall k :: 0 <= k < |tr| && tr[k].req.UnassignReq? ==> tr[k].req.freeOk
    ensures Sound(At(p, tr, i), if i == 0 then start else tr[i - 1].now)
  {
    if i > 0 {
      TracesStaySound(p, start, tr, i - 1);
      StepKeepsSoundIff(At(p, tr, i - 1), if i == 1 then start else tr[i - 2].now, tr[i - 1]);
    }
  }
}
