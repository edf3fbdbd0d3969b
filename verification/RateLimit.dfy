/** The fixed-window request limiter with shared buckets (server/internal/api/rate_limit.go). */
module RateLimit {
  import opened Options
  import opened Spacing

  const LIMIT := 10000

  datatype Bucket = Bucket(start: int, count: nat)

  /** One request; key joins path and address. */
  datatype Request = Request(key: string, at: int)

  function Bump(b: Option<Bucket>, now: int, window: nat): Bucket {
    if b.None? || now - b.value.start >= window then Bucket(now, 1) else Bucket(b.value.start, b.value.count + 1)
  }

  function Lookup(m: map<string, Bucket>, key: string): Option<Bucket> {
    if key in m then Some(m[key]) else None
  }

  /** The buckets a request finds: all dropped if there are too many, stale ones dropped. */
  function Swept(m: map<string, Bucket>, now: int, window: nat): map<string, Bucket> {
    if |m| > LIMIT then map[] else map k | k in m && now - m[k].start <= 2 * window :: m[k]
  }

  function Step(m: map<string, Bucket>, r: Request, window: nat): map<string, Bucket> {
    var s := Swept(m, r.at, window);
    s[r.key := Bump(Lookup(s, r.key), r.at, window)]
  }

  class Limiter {
    var buckets: map<string, Bucket>

    constructor ()
      ensures buckets == map[]
    {
      buckets := map[];
    }

    method Sweep(now: int, window: nat)
      modifies this
      ensures buckets == Swept(old(buckets), now, window)
    {
      if |buckets| > LIMIT {
        buckets := map[];
        return;
      }
      ghost var before := buckets;
      var todo := buckets.Keys;
      while todo != {}
        invariant todo <= before.Keys
        invariant buckets == map k | k in before && (k in todo || now - before[k].start <= 2 * window) :: before[k]
        decreases |todo|
      {
        var k :| k in todo;
        todo := todo - {k};
        if now - buckets[k].start > 2 * window {
          buckets := buckets - {k};
        }
      }
    }

    method Allow(r: Request, maxRequests: nat, window: nat) returns (limited: bool)
      modifies this
      ensures buckets == Step(old(buckets), r, window)
      ensures limited <==> buckets[r.key].count > maxRequests
    {
      Sweep(r.at, window);
      var b := Bucket(r.at, 0);
      if r.key in buckets && r.at - buckets[r.key].start < window {
        b := buckets[r.key];
      }
      b := b.(count := b.count + 1);
      buckets := buckets[r.key := b];
      limited := b.count > maxRequests;
    }
  }

  /** Another key's bucket stays exactly if there are at most 10000 and it is at most two windows old. */
  lemma OthersStayIff(m: map<string, Bucket>, r: Request, window: nat, k: string)
    requires k != r.key
    ensures var s := Step(m, r, window);
            && (k in s <==> k in m && |m| <= 10000 && r.at <= m[k].start + 2 * window)
            && (k in s ==> s[k] == m[k])
  {
  }

  // ---- Eviction against a counter for each key ------------------------------------------

  function Buckets(rs: seq<Request>, window: nat): map<string, Bucket> {
    if rs == [] then map[] else Step(Buckets(rs[..|rs| - 1], window), rs[|rs| - 1], window)
  }

  /** The never-evicting counter of one key. */
  function Simple(rs: seq<Request>, key: string, window: nat): Option<Bucket> {
    if rs == [] then None
    else
      var before, r := Simple(rs[..|rs| - 1], key, window), rs[|rs| - 1];
      if r.key == key then Some(Bump(before, r.at, window)) else before
  }

  predicate Ordered(rs: seq<Request>) {
    forall i, j :: 0 <= i < j < |rs| ==> rs[i].at <= rs[j].at
  }

  /** Every request finds at most 10000 buckets. */
  ghost predicate Room(rs: seq<Request>, window: nat) {
    forall i :: 0 <= i < |rs| ==> |Buckets(rs[..i], window)| <= 10000
  }

  /** An evicted bucket has run out, now and later. */
  predicate Agrees(b: Option<Bucket>, s: Option<Bucket>, now: int, window: nat) {
    b == s || (b.None? && s.Some? && now - s.value.start >= window)
  }

  lemma {:induction false} RoomOfFront(rs: seq<Request>, window: nat)
    requires rs != [] && Room(rs, window)
    ensures Room(rs[..|rs| - 1], window) && |Buckets(rs[..|rs| - 1], window)| <= 10000
  {
    var front := rs[..|rs| - 1];
    forall i | 0 <= i < |front| ensures |Buckets(front[..i], window)| <= 10000 {
      assert front[..i] == rs[..i];
    }
  }

  /** Without room, a request is counted differently exactly when its own bucket had not run out. */
  lemma WipingMattersIff(m: map<string, Bucket>, r: Request, window: nat)
    requires |m| > 10000 && r.key in m && m[r.key].count > 0
    ensures Step(m, r, window)[r.key] != Bump(Some(m[r.key]), r.at, window) <==> r.at - m[r.key].start < window
  {
  }

  /** Some request since the last one of the key dropped all buckets. */
  predicate Wiped(rs: seq<Request>, key: string, window: nat) {
    rs != [] && var front := rs[..|rs| - 1];
    rs[|rs| - 1].key != key && (|Buckets(front, window)| > 10000 || Wiped(front, key, window))
  }

  /**
   * The last request is of the key, whose window is still open, and it or one since the key's previous one dropped all
   * buckets.
   */
  predicate Disturbed(rs: seq<Request>, key: string, window: nat) {
    rs != [] && var front, r := rs[..|rs| - 1], rs[|rs| - 1];
    && r.key == key && (|Buckets(front, window)| > 10000 || Wiped(front, key, window))
    && var s := Simple(front, key, window); s.Some? && r.at - s.value.start < window
  }

  ghost predicate Undisturbed(rs: seq<Request>, key: string, window: nat) {
    forall i :: 0 <= i <= |rs| ==> !Disturbed(rs[..i], key, window)
  }

  /** The last request, if of the key, is counted as by the never-evicting counter. */
  predicate CountedRight(rs: seq<Request>, key: string, window: nat) {
    rs != [] && rs[|rs| - 1].key == key ==>
      && key in Buckets(rs, window) && Simple(rs, key, window).Some?
      && Buckets(rs, window)[key].count == Simple(rs, key, window).value.count
  }

  lemma {:induction false} WipedIsGone(rs: seq<Request>, key: string, window: nat)
    requires Wiped(rs, key, window)
    ensures key !in Buckets(rs, window)
    decreases |rs|
  {
    var front := rs[..|rs| - 1];
    if |Buckets(front, window)| <= 10000 {
      WipedIsGone(front, key, window);
    }
  }

  lemma {:induction false} SimpleCountsUp(rs: seq<Request>, key: string, window: nat)
    ensures Simple(rs, key, window).Some? ==> Simple(rs, key, window).value.count >= 1
    decreases |rs|
  {
    if rs != [] {
      SimpleCountsUp(rs[..|rs| - 1], key, window);
    }
  }

  lemma DisturbedIsMiscounted(rs: seq<Request>, key: string, window: nat)
    requires Disturbed(rs, key, window)
    ensures !CountedRight(rs, key, window)
  {
    var front := rs[..|rs| - 1];
    SimpleCountsUp(front, key, window);
    if Wiped(front, key, window) {
      WipedIsGone(front, key, window);
    }
  }

  lemma StepAgrees(m: map<string, Bucket>, s: Option<Bucket>, r: Request, key: string, window: nat, last: int)
    requires |m| <= 10000 && Agrees(Lookup(m, key), s, last, window) && last <= r.at
    ensures if r.key == key then Lookup(Step(m, r, window), key) == Some(Bump(s, r.at, window))
            else Agrees(Lookup(Step(m, r, window), key), s, r.at, window)
  {
  }

  lemma {:induction false} EvictionAgrees(rs: seq<Request>, key: string, window: nat)
    requires rs != [] && Ordered(rs) && Undisturbed(rs, key, window)
    ensures || Wiped(rs, key, window)
            || Agrees(Lookup(Buckets(rs, window), key), Simple(rs, key, window), rs[|rs| - 1].at, window)
    ensures key == rs[|rs| - 1].key ==> Lookup(Buckets(rs, window), key) == Simple(rs, key, window)
    decreases |rs|
  {
    var front, r := rs[..|rs| - 1], rs[|rs| - 1];
    assert !Disturbed(rs, key, window) by { assert rs[..|rs|] == rs; }
    if front != [] {
      assert forall i :: 0 <= i <= |front| ==> front[..i] == rs[..i];
      EvictionAgrees(front, key, window);
    }
    if |Buckets(front, window)| <= 10000 {
      if Wiped(front, key, window) {
        WipedIsGone(front, key, window);
      } else {
        StepAgrees(Buckets(front, window), Simple(front, key, window), r, key, window,
                   if front == [] then r.at else front[|front| - 1].at);
      }
    }
  }

  /**
   * All of a key's requests are counted as by the never-evicting counter exactly when none of them is disturbed by a
   * wipe.
   */
  lemma CountsAreRightIff(rs: seq<Request>, key: string, window: nat)
    requires Ordered(rs)
    ensures (forall i :: 0 <= i <= |rs| ==> CountedRight(rs[..i], key, window)) <==> Undisturbed(rs, key, window)
  {
    if i :| 0 <= i <= |rs| && Disturbed(rs[..i], key, window) {
      DisturbedIsMiscounted(rs[..i], key, window);
    } else {
      forall i | 0 < i <= |rs| ensures CountedRight(rs[..i], key, window) {
        assert forall j :: 0 <= j <= i ==> rs[..i][..j] == rs[..j];
        EvictionAgrees(rs[..i], key, window);
      }
    }
  }

  lemma {:induction false} RoomIsUndisturbed(rs: seq<Request>, key: string, window: nat)
    requires Room(rs, window)
    ensures !Wiped(rs, key, window) && Undisturbed(rs, key, window)
    decreases |rs|
  {
    if rs == [] {
      assert forall i :: 0 <= i <= |rs| ==> rs[..i] == [];
    } else {
      var front := rs[..|rs| - 1];
      RoomOfFront(rs, window);
      RoomIsUndisturbed(front, key, window);
      forall i | 0 <= i <= |rs| ensures !Disturbed(rs[..i], key, window) {
        if i < |rs| {
          assert front[..i] == rs[..i];
        } else {
          assert rs[..i] == rs;
        }
      }
    }
  }

  /** Evicting never changes a decision while there is room: the request's count is the never-evicting counter's. */
  lemma {:induction false} EvictionIsInvisible(rs: seq<Request>, window: nat)
    requires rs != [] && Ordered(rs) && Room(rs, window)
    ensures var key := rs[|rs| - 1].key;
            key in Buckets(rs, window) && Some(Buckets(rs, window)[key]) == Simple(rs, key, window)
  {
    RoomIsUndisturbed(rs, rs[|rs| - 1].key, window);
    EvictionAgrees(rs, rs[|rs| - 1].key, window);
  }

  // ---- How many get through -----------------------------------------------------------------

  /** Times at which the limiter lets requests of one key through. */
  function Through(rs: seq<Request>, key: string, max: nat, window: nat): seq<int> {
    if rs == [] then []
    else
      var before, r := Through(rs[..|rs| - 1], key, max, window), rs[|rs| - 1];
      if r.key == key && Buckets(rs, window)[r.key].count <= max then before + [r.at] else before
  }

  /** Requests between lo and hi that find too many buckets and drop them all. */
  function Wipes(rs: seq<Request>, window: nat, lo: int, hi: int): nat {
    if rs == [] then 0
    else
      var front, r := rs[..|rs| - 1], rs[|rs| - 1];
      Wipes(front, window, lo, hi) + if |Buckets(front, window)| > 10000 && lo <= r.at <= hi then 1 else 0
  }

  /** What of a bucket's count gets through. */
  function Passed(count: nat, max: nat): nat {
    if count <= max then count else max
  }

  /** The same without the request that opened the bucket. */
  function PassedLater(count: nat, max: nat): nat {
    if Passed(count, max) == 0 then 0 else Passed(count, max) - 1
  }

  /** A limit for each of them. */
  function Extra(rs: seq<Request>, max: nat, window: nat, lo: int, hi: int): nat {
    if rs == [] then 0
    else
      var front, r := rs[..|rs| - 1], rs[|rs| - 1];
      Extra(front, max, window, lo, hi) + if |Buckets(front, window)| > 10000 && lo <= r.at <= hi then max else 0
  }

  /** What may have got through since lo: the extra, the end of a bucket opened before lo, and the current bucket's. */
  function Cap(b: Option<Bucket>, extra: nat, max: nat, lo: int): nat {
    if b.None? then extra + PassedLater(max, max)
    else if b.value.start < lo then extra + PassedLater(b.value.count, max)
    else extra + PassedLater(max, max) + Passed(b.value.count, max)
  }

  predicate Within(n: nat, b: Option<Bucket>, extra: nat, max: nat, lo: int, hi: int, now: int) {
    && (now < lo ==> n == 0) && (b.Some? ==> b.value.count >= 1)
    && n <= if now <= hi then Cap(b, extra, max, lo) else extra + max + PassedLater(max, max)
  }

  ghost predicate WithinAt(rs: seq<Request>, key: string, max: nat, window: nat, lo: int, now: int) {
    var hi := lo + window - 1;
    Within(CountIn(Through(rs, key, max, window), lo, hi), Lookup(Buckets(rs, window), key),
      Extra(rs, max, window, lo, hi), max, lo, hi, now)
  }

  lemma CountNext(rs: seq<Request>, key: string, max: nat, window: nat, lo: int, hi: int)
    requires rs != []
    ensures var front, r := rs[..|rs| - 1], rs[|rs| - 1];
            CountIn(Through(rs, key, max, window), lo, hi) ==
            CountIn(Through(front, key, max, window), lo, hi)
            + if r.key == key && Buckets(rs, window)[r.key].count <= max && lo <= r.at <= hi then 1 else 0
  {
    CountMore(Through(rs[..|rs| - 1], key, max, window), rs[|rs| - 1].at, lo, hi);
  }

  lemma StepCounts(m: map<string, Bucket>, r: Request, key: string, window: nat)
    requires Lookup(m, key).Some? ==> Lookup(m, key).value.count >= 1
    ensures var b := Lookup(Step(m, r, window), key); b.Some? ==> b.value.count >= 1
  {
  }

  lemma WithinNow(n: nat, m: map<string, Bucket>, r: Request, key: string, extra: nat, max: nat, window: nat, lo: int,
      last: int)
    requires Within(n, Lookup(m, key), extra, max, lo, lo + window - 1, last) && last <= r.at
             && lo <= r.at < lo + window
    ensures var e := Step(m, r, window);
            Within(n + (if r.key == key && e[r.key].count <= max then 1 else 0), Lookup(e, key),
                   if |m| > 10000 then extra + max else extra, max, lo, lo + window - 1, r.at)
  {
    StepCounts(m, r, key, window);
  }

  lemma {:induction false} ExtraNext(rs: seq<Request>, max: nat, window: nat, lo: int, hi: int)
    requires rs != [] && lo <= rs[|rs| - 1].at <= hi
    ensures var front := rs[..|rs| - 1];
            Extra(rs, max, window, lo, hi) ==
            Extra(front, max, window, lo, hi) + if |Buckets(front, window)| > 10000 then max else 0
  {
  }

  lemma {:induction false} NextInside(rs: seq<Request>, key: string, max: nat, window: nat, lo: int, last: int)
    requires rs != [] && last <= rs[|rs| - 1].at && lo <= rs[|rs| - 1].at < lo + window
    requires WithinAt(rs[..|rs| - 1], key, max, window, lo, last)
    ensures WithinAt(rs, key, max, window, lo, rs[|rs| - 1].at)
  {
    var front, r, hi := rs[..|rs| - 1], rs[|rs| - 1], lo + window - 1;
    CountNext(rs, key, max, window, lo, hi);
    ExtraNext(rs, max, window, lo, hi);
    WithinNow(CountIn(Through(front, key, max, window), lo, hi), Buckets(front, window), r, key,
              Extra(front, max, window, lo, hi), max, window, lo, last);
  }

  lemma CapIsBelow(b: Option<Bucket>, extra: nat, max: nat, lo: int)
    ensures Cap(b, extra, max, lo) <= extra + max + PassedLater(max, max)
  {
  }

  lemma WithinLater(n: nat, b: Option<Bucket>, c: Option<Bucket>, extra: nat, max: nat, lo: int, hi: int, last: int,
      now: int)
    requires Within(n, b, extra, max, lo, hi, last) && last <= now && !(lo <= now <= hi)
             && (c.Some? ==> c.value.count >= 1)
    ensures Within(n, c, extra, max, lo, hi, now)
  {
    CapIsBelow(b, extra, max, lo);
  }

  lemma NextOutside(rs: seq<Request>, key: string, max: nat, window: nat, lo: int, last: int)
    requires rs != [] && last <= rs[|rs| - 1].at && !(lo <= rs[|rs| - 1].at < lo + window)
    requires WithinAt(rs[..|rs| - 1], key, max, window, lo, last)
    ensures WithinAt(rs, key, max, window, lo, rs[|rs| - 1].at)
  {
    var front, r, hi := rs[..|rs| - 1], rs[|rs| - 1], lo + window - 1;
    CountNext(rs, key, max, window, lo, hi);
    StepCounts(Buckets(front, window), r, key, window);
    WithinLater(CountIn(Through(front, key, max, window), lo, hi), Lookup(Buckets(front, window), key),
                Lookup(Buckets(rs, window), key), Extra(front, max, window, lo, hi), max, lo, hi, last, r.at);
  }

  lemma {:induction false} AlwaysWithin(rs: seq<Request>, key: string, max: nat, window: nat, lo: int, now: int)
    requires Ordered(rs) && now == if rs == [] then lo - 1 else rs[|rs| - 1].at
    ensures WithinAt(rs, key, max, window, lo, now)
    decreases |rs|
  {
    if rs != [] {
      var front := rs[..|rs| - 1];
      var last := if front == [] then if now < lo then now else lo - 1 else front[|front| - 1].at;
      if front != [] {
        AlwaysWithin(front, key, max, window, lo, last);
      }
      if lo <= now < lo + window {
        NextInside(rs, key, max, window, lo, last);
      } else {
        NextOutside(rs, key, max, window, lo, last);
      }
    }
  }

  lemma OneMoreWipe(wipes: nat, max: nat)
    ensures (wipes + 1) * max == wipes * max + max
  {
  }

  lemma {:induction false} ExtraPerWipe(rs: seq<Request>, max: nat, window: nat, lo: int, hi: int)
    ensures Extra(rs, max, window, lo, hi) + 2 * max == (Wipes(rs, window, lo, hi) + 2) * max
    decreases |rs|
  {
    if rs != [] {
      ExtraPerWipe(rs[..|rs| - 1], max, window, lo, hi);
      OneMoreWipe(Wipes(rs[..|rs| - 1], window, lo, hi) + 2, max);
    }
  }

  lemma BelowProduct(n: nat, extra: nat, max: nat, product: nat)
    requires n <= extra + max + PassedLater(max, max) && extra + 2 * max == product
    ensures n + (if max > 0 then 1 else 0) <= product
  {
  }

  /**
   * In a half-open interval of one window, fewer than twice the limit get through for a key, and a limit more for every
   * wipe in it.
   */
  lemma ThroughIsBounded(rs: seq<Request>, key: string, max: nat, window: nat, t: int)
    requires Ordered(rs)
    ensures CountIn(Through(rs, key, max, window), t, t + window - 1) + (if max > 0 then 1 else 0)
            <= (Wipes(rs, window, t, t + window - 1) + 2) * max
  {
    AlwaysWithin(rs, key, max, window, t, if rs == [] then t - 1 else rs[|rs| - 1].at);
    CapIsBelow(Lookup(Buckets(rs, window), key), Extra(rs, max, window, t, t + window - 1), max, t);
    ExtraPerWipe(rs, max, window, t, t + window - 1);
    BelowProduct(CountIn(Through(rs, key, max, window), t, t + window - 1), Extra(rs, max, window, t, t + window - 1),
                 max, (Wipes(rs, window, t, t + window - 1) + 2) * max);
  }

  lemma {:induction false} RoomMeansNoWipes(rs: seq<Request>, window: nat, lo: int, hi: int)
    requires Room(rs, window)
    ensures Wipes(rs, window, lo, hi) == 0
    decreases |rs|
  {
    if rs != [] {
      RoomOfFront(rs, window);
      RoomMeansNoWipes(rs[..|rs| - 1], window, lo, hi);
    }
  }

  /** While no request finds too many buckets, twice the limit is never reached. */
  lemma BelowTwiceTheLimit(rs: seq<Request>, key: string, max: nat, window: nat, t: int)
    requires Ordered(rs) && Room(rs, window) && max > 0
    ensures CountIn(Through(rs, key, max, window), t, t + window - 1) < 2 * max
  {
    ThroughIsBounded(rs, key, max, window, t);
    RoomMeansNoWipes(rs, window, t, t + window - 1);
  }

  // ---- A run that gets that far ---------------------------------------------------------------

  /** The rest of one bucket at its end, then the whole next one. */
  function BurstAt(i: nat, max: nat, window: nat): int {
    if i == 0 then 0 else if i < max then window - 1 else window
  }

  function Burst(key: string, max: nat, window: nat, n: nat): (rs: seq<Request>)
    ensures |rs| == n && forall i :: 0 <= i < n ==> rs[i] == Request(key, BurstAt(i, max, window))
  {
    if n == 0 then [] else Burst(key, max, window, n - 1) + [Request(key, BurstAt(n - 1, max, window))]
  }

  function BurstBucket(max: nat, window: nat, n: nat): Bucket
    requires n > 0
  {
    if n <= max then Bucket(0, n) else Bucket(window, n - max)
  }

  lemma BurstStep(key: string, max: nat, window: nat, n: nat, m: map<string, Bucket>)
    requires 1 <= n < 2 * max && window >= 2 && m == map[key := BurstBucket(max, window, n)]
    ensures Step(m, Request(key, BurstAt(n, max, window)), window) == map[key := BurstBucket(max, window, n + 1)]
  {
    assert |m| == 1;
  }

  /** All of the burst but its first request get through in the interval. */
  lemma {:induction false} BurstPasses(key: string, max: nat, window: nat, n: nat)
    requires 1 <= n <= 2 * max && window >= 2
    ensures Buckets(Burst(key, max, window, n), window) == map[key := BurstBucket(max, window, n)]
    ensures CountIn(Through(Burst(key, max, window, n), key, max, window), 1, window) == n - 1
  {
    var rs := Burst(key, max, window, n);
    assert rs[..n - 1] == Burst(key, max, window, n - 1);
    CountNext(rs, key, max, window, 1, window);
    if n > 1 {
      BurstPasses(key, max, window, n - 1);
      BurstStep(key, max, window, n - 1, Buckets(rs[..n - 1], window));
    } else {
      assert Buckets(rs[..0], window) == map[];
    }
  }

  lemma {:induction false} BurstHasRoom(key: string, max: nat, window: nat, n: nat)
    requires n <= 2 * max && window >= 2
    ensures Room(Burst(key, max, window, n), window)
  {
    forall i | 0 <= i < n ensures |Buckets(Burst(key, max, window, n)[..i], window)| <= 10000 {
      assert Burst(key, max, window, n)[..i] == Burst(key, max, window, i);
      if i > 0 {
        BurstPasses(key, max, window, i);
      }
    }
  }

  lemma {:induction false} BurstIsOrdered(key: string, max: nat, window: nat, n: nat)
    requires window >= 2
    ensures Ordered(Burst(key, max, window, n))
  {
    assert forall i, j :: 0 <= i < j ==> BurstAt(i, max, window) <= BurstAt(j, max, window);
  }

  /** One short of twice the limit does get through. */
  lemma {:induction false} TwiceLessOneFits(key: string, max: nat, window: nat, rs: seq<Request>)
    requires max > 0 && window >= 2 && rs == Burst(key, max, window, 2 * max)
    ensures Ordered(rs) && Room(rs, window) && CountIn(Through(rs, key, max, window), 1, window) == 2 * max - 1
  {
    BurstIsOrdered(key, max, window, 2 * max);
    BurstPasses(key, max, window, 2 * max);
    BurstHasRoom(key, max, window, 2 * max);
  }
}
