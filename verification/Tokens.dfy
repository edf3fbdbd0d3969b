/**
 * Sliding renewal of session tokens (server/internal/auth/jwt.go; sections 4.1.4 and 4.1.6 of RFC 7519). Times are
 * whole seconds.
 */
module Tokens {
  import opened Options

  /** authAt 0: the claim is missing. */
  datatype Claims = Claims(authAt: int, issuedAt: Option<int>, expiresAt: int)

  /** maxAge is not enforced unless positive. */
  datatype Policy = Policy(ttl: int, maxAge: int)

  function IssueAt(now: int, policy: Policy, authAt: int): Claims {
    Claims(authAt, Some(now), now + policy.ttl)
  }

  function Login(now: int, policy: Policy): Claims {
    IssueAt(now, policy, now)
  }

  /** When the session began, as far as the token tells. */
  function Anchor(c: Claims, now: int): int {
    if c.authAt != 0 then c.authAt else c.issuedAt.GetOr(now)
  }

  predicate TooOld(anchor: int, now: int, policy: Policy) {
    policy.maxAge > 0 && now - anchor >= policy.maxAge
  }

  /** Half a lifetime is compared in nanoseconds, so an odd number of seconds is halved exactly. */
  function RefreshIfNeeded(c: Claims, now: int, policy: Policy): Option<Claims> {
    if TooOld(Anchor(c, now), now, policy) then None
    else if c.issuedAt.Some? && 2 * (now - c.issuedAt.value) < policy.ttl then None
    else Some(IssueAt(now, policy, Anchor(c, now)))
  }

  /** A token is accepted before its expiry time. */
  predicate Accepted(c: Claims, now: int) {
    now < c.expiresAt
  }

  /**
   * A token of a login is renewed from half its life on, as long as the login is younger than the maximum age, if there
   * is one; the renewed token is of the same login and lives a whole lifetime.
   */
  lemma RenewalIff(c: Claims, issued: int, now: int, policy: Policy)
    requires c.authAt != 0 && c.issuedAt == Some(issued)
    ensures var r := RefreshIfNeeded(c, now, policy);
            && (r.Some? <==>
                  (policy.maxAge <= 0 || now < c.authAt + policy.maxAge) && 2 * (now - issued) >= policy.ttl)
            && (r.Some? ==> r.value == Claims(c.authAt, Some(now), now + policy.ttl))
  {
  }

  /** A token that tells neither is renewed at once, and anchored there. */
  lemma UndatedIsRenewed(c: Claims, now: int, policy: Policy)
    requires c.authAt == 0 && c.issuedAt.None?
    ensures RefreshIfNeeded(c, now, policy) == Some(Claims(now, Some(now), now + policy.ttl))
  {
  }

  // ---- Chains of tokens ------------------------------------------------------------

  function Poll(c: Claims, now: int, policy: Policy): Claims {
    RefreshIfNeeded(c, now, policy).GetOr(c)
  }

  /** The token held after polling at these times, accepted or not. */
  function Held(c: Claims, times: seq<int>, policy: Policy): Claims {
    if times == [] then c else Poll(Held(c, times[..|times| - 1], policy), times[|times| - 1], policy)
  }

  predicate Chained(c: Claims, authAt: int, policy: Policy) {
    && c.authAt == authAt && c.issuedAt.Some? && c.expiresAt == c.issuedAt.value + policy.ttl
    && (policy.maxAge > 0 ==> c.issuedAt.value < authAt + policy.maxAge)
  }

  lemma {:induction false} HeldIsChained(c: Claims, authAt: int, times: seq<int>, policy: Policy)
    requires Chained(c, authAt, policy) && authAt != 0
    ensures Chained(Held(c, times, policy), authAt, policy)
    decreases |times|
  {
    if times != [] {
      HeldIsChained(c, authAt, times[..|times| - 1], policy);
    }
  }

  /** However a client polls, its tokens keep the login time and end before login + maxAge + ttl. */
  lemma {:induction false} SessionIsBounded(login: int, times: seq<int>, policy: Policy)
    requires login != 0 && policy.maxAge > 0
    ensures var c := Held(Login(login, policy), times, policy);
            && c.authAt == login && c.expiresAt < login + policy.maxAge + policy.ttl
            && forall now :: now >= login + policy.maxAge + policy.ttl ==> !Accepted(c, now)
  {
    HeldIsChained(Login(login, policy), login, times, policy);
  }

  /** Legacy tokens are anchored to their issue time from the first renewal on. */
  lemma LegacyIsAnchored(c: Claims, now: int, policy: Policy)
    requires c.authAt == 0 && c.issuedAt.Some? && c.issuedAt.value != 0
    requires policy.maxAge > 0 && RefreshIfNeeded(c, now, policy).Some?
    ensures Chained(RefreshIfNeeded(c, now, policy).value, c.issuedAt.value, policy)
  {
  }

  // ---- Clients that poll often enough ---------------------------------------------------

  function LastOr(times: seq<int>, start: int): int {
    if times == [] then start else times[|times| - 1]
  }

  /** Times go on, with gaps of at most half a lifetime, the first one measured from start. */
  predicate Steady(start: int, times: seq<int>, policy: Policy) {
    times == [] ||
    (var before, now := times[..|times| - 1], times[|times| - 1];
     LastOr(before, start) <= now && 2 * (now - LastOr(before, start)) <= policy.ttl && Steady(start, before, policy))
  }

  predicate YoungFor(c: Claims, now: int, policy: Policy) {
    c.issuedAt.Some? && c.expiresAt == c.issuedAt.value + policy.ttl && c.issuedAt.value <= now
    && (c.issuedAt.value == now || 2 * (now - c.issuedAt.value) < policy.ttl)
  }

  lemma {:induction false} HeldIsYoung(login: int, times: seq<int>, policy: Policy)
    requires login != 0 && policy.ttl > 0 && Steady(login, times, policy)
             && !TooOld(login, LastOr(times, login), policy)
    ensures Held(Login(login, policy), times, policy).authAt == login
    ensures YoungFor(Held(Login(login, policy), times, policy), LastOr(times, login), policy)
    decreases |times|
  {
    if times != [] {
      HeldIsYoung(login, times[..|times| - 1], policy);
    }
  }

  /** A client polling at gaps of at most half a lifetime never holds an expired token before login + maxAge. */
  lemma {:induction false} SteadyClientStaysIn(login: int, times: seq<int>, now: int, policy: Policy)
    requires login != 0 && policy.ttl > 0 && Steady(login, times + [now], policy)
    requires policy.maxAge <= 0 || now < login + policy.maxAge
    ensures Accepted(Held(Login(login, policy), times, policy), now)
  {
    assert (times + [now])[..|times|] == times;
    HeldIsYoung(login, times, policy);
  }

  /**
   * No longer gap is safe: polled just before half its life and then after any gap longer than half, the token has
   * expired.
   */
  lemma {:induction false} LongerGapsFail(login: int, g: int, policy: Policy)
    requires policy.ttl >= 1 && 2 * g > policy.ttl
    ensures var first := login + (policy.ttl - 1) / 2; !Accepted(Held(Login(login, policy), [first], policy), first + g)
  {
    var first := login + (policy.ttl - 1) / 2;
    assert [first][..0] == [];
    assert Held(Login(login, policy), [first], policy) == Poll(Login(login, policy), first, policy);
  }
}
