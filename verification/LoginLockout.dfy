/** Locking logins after failures (server/internal/api/auth.go). Times are seconds. */
module LoginLockout {
  import opened Options
  import opened Spacing

  const WINDOW := 900
  const LOCK := 900
  const THRESHOLD := 5

  /** lockedUntil: None is the zero time, which is always past. */
  datatype Failures = Failures(count: nat, windowStart: int, lockedUntil: Option<int>)

  predicate Locked(f: Option<Failures>, now: int) {
    f.Some? && f.value.lockedUntil.Some? && now <= f.value.lockedUntil.value
  }

  function Record(f: Option<Failures>, now: int): Failures {
    var g := if f.None? || now - f.value.windowStart > WINDOW then Failures(0, now, None) else f.value;
    var n := g.count + 1;
    Failures(n, g.windowStart, if n >= THRESHOLD then Some(now + LOCK) else g.lockedUntil)
  }

  // ---- Attempts on one key, none of them successful -----------------------------------

  /** An attempt while locked is refused and not recorded. */
  function Attempt(f: Option<Failures>, now: int): Option<Failures> {
    if Locked(f, now) then f else Some(Record(f, now))
  }

  function After(f: Option<Failures>, times: seq<int>): Option<Failures>
    decreases |times|
  {
    if times == [] then f else Attempt(After(f, times[..|times| - 1]), times[|times| - 1])
  }

  /** Times of the failures that were recorded. */
  function Recorded(times: seq<int>): seq<int>
    decreases |times|
  {
    if times == [] then []
    else
      var before, now := times[..|times| - 1], times[|times| - 1];
      if Locked(After(None, before), now) then Recorded(before) else Recorded(before) + [now]
  }

  /**
   * The last failures recorded are those the entry counts; the window opened well after the failures four before it.
   */
  predicate Counts(ts: seq<int>, f: Failures) {
    && 1 <= f.count <= THRESHOLD && f.count <= |ts|
    && ts[|ts| - f.count] == f.windowStart
    && f.lockedUntil == (if f.count == THRESHOLD then Some(ts[|ts| - 1] + LOCK) else None)
    && (|ts| - f.count >= 4 ==> f.windowStart > ts[|ts| - f.count - 4] + WINDOW)
  }

  predicate Bounded(ts: seq<int>, f: Option<Failures>) {
    Sorted(ts) && Sparse(ts, 8, WINDOW) && if f.None? then ts == [] else Counts(ts, f.value)
  }

  lemma BoundedMore(ts: seq<int>, f: Option<Failures>, now: int)
    requires Bounded(ts, f) && (ts != [] ==> ts[|ts| - 1] <= now) && !Locked(f, now)
    ensures Bounded(ts + [now], Some(Record(f, now)))
  {
    SparseMore(ts, now, 8, WINDOW);
  }

  lemma {:induction false} RecordedIsBounded(times: seq<int>)
    requires Sorted(times)
    ensures Bounded(Recorded(times), After(None, times))
    ensures Recorded(times) != [] ==> times != [] && Recorded(times)[|Recorded(times)| - 1] <= times[|times| - 1]
    decreases |times|
  {
    if times != [] {
      var before, now := times[..|times| - 1], times[|times| - 1];
      RecordedIsBounded(before);
      if !Locked(After(None, before), now) {
        BoundedMore(Recorded(before), After(None, before), now);
      }
    }
  }

  /**
   * For one key and no success in between: any closed 15-minute interval holds at most 8 recorded failures, and at most
   * 5 are counted.
   */
  lemma LockoutBound(times: seq<int>, t: int)
    requires Sorted(times)
    ensures CountIn(Recorded(times), t, t + WINDOW) <= 8
    ensures After(None, times).Some? ==> After(None, times).value.count <= THRESHOLD
  {
    RecordedIsBounded(times);
    SparseCount(Recorded(times), 8, WINDOW, t);
  }

  lemma {:induction false} AfterMore(times: seq<int>, now: int)
    ensures After(None, times + [now]) == Attempt(After(None, times), now)
    ensures Recorded(times + [now]) == if Locked(After(None, times), now) then Recorded(times)
            else Recorded(times) + [now]
  {
    assert (times + [now])[..|times|] == times;
  }

  /** One more failure that is recorded. */
  lemma OneMore(ts: seq<int>, f: Option<Failures>, now: int, t: int, n: nat)
    requires Recorded(ts) == ts && After(None, ts) == f && !Locked(f, now) && CountIn(ts, t, t + WINDOW) == n
    ensures Recorded(ts + [now]) == ts + [now] && After(None, ts + [now]) == Some(Record(f, now))
    ensures CountIn(ts + [now], t, t + WINDOW) == n + if t <= now <= t + WINDOW then 1 else 0
  {
    AfterMore(ts, now);
    CountMore(ts, now, t, t + WINDOW);
  }

  lemma {:induction false} FourFit(a: seq<int>, b: seq<int>)
    requires a == [0] && b == a + [900] + [900] + [900]
    ensures Recorded(b) == b && After(None, b) == Some(Failures(4, 0, None)) && CountIn(b, 900, 900 + WINDOW) == 3
  {
    OneMore([], None, 0, 900, 0);
    assert [] + [0] == a;
    OneMore(a, Some(Failures(1, 0, None)), 900, 900, 0);
    OneMore(a + [900], Some(Failures(2, 0, None)), 900, 900, 1);
    OneMore(a + [900] + [900], Some(Failures(3, 0, None)), 900, 900, 2);
  }

  /** Eight do fit: three at the end of one window, then five of the next. */
  lemma {:induction false} EightFit(a: seq<int>, b: seq<int>, c: seq<int>)
    requires a == [0] && b == a + [900] + [900] + [900] && c == b + [901] + [901] + [901] + [901] + [901]
    ensures Sorted(c) && CountIn(Recorded(c), 900, 900 + WINDOW) == 8
  {
    FourFit(a, b);
    OneMore(b, Some(Failures(4, 0, None)), 901, 900, 3);
    OneMore(b + [901], Some(Failures(1, 901, None)), 901, 900, 4);
    OneMore(b + [901] + [901], Some(Failures(2, 901, None)), 901, 900, 5);
    OneMore(b + [901] + [901] + [901], Some(Failures(3, 901, None)), 901, 900, 6);
    OneMore(b + [901] + [901] + [901] + [901], Some(Failures(4, 901, None)), 901, 900, 7);
  }

  // ---- When a key is locked -------------------------------------------------------------------

  /** Nothing counts any more: there is no entry, or its window and its lock are over. */
  predicate Afresh(f: Option<Failures>, now: int) {
    f.None? || (now > f.value.windowStart + 900 && (f.value.lockedUntil.Some? ==> now > f.value.lockedUntil.value))
  }

  /** Failures within 15 minutes of the first are counted, and the fifth locks for 15 minutes. */
  lemma {:induction false} FailuresCount(f: Option<Failures>, ts: seq<int>)
    requires 1 <= |ts| <= 5 && Sorted(ts) && Afresh(f, ts[0]) && ts[|ts| - 1] <= ts[0] + 900
    ensures After(f, ts) == Some(Failures(|ts|, ts[0], if |ts| == 5 then Some(ts[4] + 900) else None))
  {
    var front := ts[..|ts| - 1];
    if front != [] {
      FailuresCount(f, front);
    } else {
      assert After(f, front) == f;
    }
  }

  /**
   * Four failures never lock a key; after five it is refused for exactly 15 minutes, and then counts from one again.
   */
  lemma {:induction false} FifthFailureLocks(f: Option<Failures>, ts: seq<int>, now: int)
    requires 1 <= |ts| <= 5 && Sorted(ts) && Afresh(f, ts[0]) && ts[|ts| - 1] <= ts[0] + 900
    ensures Locked(After(f, ts), now) <==> |ts| == 5 && now <= ts[4] + 900
    ensures now > ts[|ts| - 1] + 900 ==> Attempt(After(f, ts), now) == Some(Failures(1, now, None))
  {
    FailuresCount(f, ts);
  }

  // ---- The table ---------------------------------------------------------------------------

  /** Keys are trimmed, lower-cased names; attempts without a name are not counted. */
  class Table {
    var failures: map<string, Failures>

    constructor ()
      ensures failures == map[]
    {
      failures := map[];
    }

    function Of(key: string): Option<Failures>
      reads this
    {
      if key in failures then Some(failures[key]) else None
    }

    method LoginLocked(key: string, now: int) returns (until: Option<int>)
      ensures until.Some? <==> key != "" && Locked(Of(key), now)
      ensures until.Some? ==> until == Of(key).value.lockedUntil
    {
      if key == "" || key !in failures {
        return None;
      }
      var f := failures[key];
      until := if f.lockedUntil.Some? && now > f.lockedUntil.value then None else f.lockedUntil;
    }

    method RecordLoginFailure(key: string, now: int)
      modifies this
      ensures failures == if key == "" then old(failures) else old(failures)[key := Record(old(Of(key)), now)]
    {
      if key == "" {
        return;
      }
      var f := Failures(0, now, None);
      if key in failures && now - failures[key].windowStart <= WINDOW {
        f := failures[key];
      }
      f := f.(count := f.count + 1);
      if f.count >= THRESHOLD {
        f := f.(lockedUntil := Some(now + LOCK));
      }
      failures := failures[key := f];
    }

    method ClearLoginFailures(key: string)
      modifies this
      ensures failures == if key == "" then old(failures) else old(failures) - {key}
    {
      if key == "" {
        return;
      }
      failures := failures - {key};
    }

    /** One failed login on a key: refused while locked, else recorded. */
    method FailedAttempt(key: string, now: int) returns (refused: bool)
      requires key != ""
      modifies this
      ensures refused <==> Locked(old(Of(key)), now)
      ensures Of(key) == Attempt(old(Of(key)), now)
      ensures forall other :: other != key ==> Of(other) == old(Of(other))
    {
      var until := LoginLocked(key, now);
      refused := until.Some?;
      if !refused {
        RecordLoginFailure(key, now);
      }
    }
  }
}
