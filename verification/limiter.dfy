/** The login rate limiter: two dictionaries, one of recent failures and one of
    lockouts, as functions on their values and as a class that updates them in place. */
module Limiter {
  import opened Common

  type Key = string

  /** Fixed configuration, in attempts and whole seconds. */
  datatype Limits = Limits(maxAttempts: int, cooldown: int, window: int)

  datatype Tables = Tables(attempts: map<Key, seq<real>>, lockouts: map<Key, real>)

  const EMPTY := Tables(map[], map[])

  /** A yes/no answer with a number of seconds to wait. */
  datatype Verdict = Verdict(limited: bool, retryAfter: int)

  datatype Outcome = Outcome(tables: Tables, verdict: Verdict)

  function Stored(s: Tables, key: Key): seq<real> {
    if key in s.attempts then s.attempts[key] else []
  }

  /** The timestamps after a cutoff, in order. */
  function After(times: seq<real>, cutoff: real): (r: seq<real>)
    ensures |r| <= |times|
  {
    if times == [] then []
    else
      var last := times[|times| - 1];
      After(times[..|times| - 1], cutoff) + if last > cutoff then [last] else []
  }

  function Ceil(x: real): int {
    -((-x).Floor)
  }

  predicate LockedAt(s: Tables, key: Key, now: real) {
    key in s.lockouts && now < s.lockouts[key]
  }

  /** An expired lockout is dropped together with the failures behind it. */
  function DropExpired(s: Tables, key: Key, now: real): Tables {
    if key in s.lockouts && s.lockouts[key] <= now
    then Tables(s.attempts - {key}, s.lockouts - {key})
    else s
  }

  function Check(l: Limits, s: Tables, key: Key, now: real): Outcome {
    if LockedAt(s, key, now) then
      Outcome(s, Verdict(true, Max(1, Ceil(s.lockouts[key] - now))))
    else
      var t := DropExpired(s, key, now);
      if key in t.attempts then
        var valid := After(t.attempts[key], now - l.window as real);
        var kept := if valid != [] then t.attempts[key := valid] else t.attempts - {key};
        if |valid| >= l.maxAttempts
        then Outcome(Tables(kept, t.lockouts[key := now + l.cooldown as real]), Verdict(true, l.cooldown))
        else Outcome(Tables(kept, t.lockouts), Verdict(false, 0))
      else Outcome(t, Verdict(false, 0))
  }

  function RecordFailure(l: Limits, s: Tables, key: Key, now: real): Outcome {
    var existing := After(Stored(s, key), now - l.window as real) + [now];
    var attempts := s.attempts[key := existing];
    if |existing| >= l.maxAttempts
    then Outcome(Tables(attempts, s.lockouts[key := now + l.cooldown as real]), Verdict(true, l.cooldown))
    else Outcome(Tables(attempts, s.lockouts), Verdict(false, 0))
  }

  function RecordSuccess(s: Tables, key: Key): Tables {
    Tables(s.attempts - {key}, s.lockouts - {key})
  }

  function Remaining(l: Limits, s: Tables, key: Key, now: real): int {
    if LockedAt(s, key, now) then 0
    else Max(0, l.maxAttempts - |After(Stored(s, key), now - l.window as real)|)
  }

  class AuthRateLimiter {
    const limits: Limits
    var attempts: map<Key, seq<real>>
    var lockouts: map<Key, real>

    function View(): Tables
      reads this
    {
      Tables(attempts, lockouts)
    }

    constructor (limits: Limits)
      ensures this.limits == limits && View() == EMPTY
    {
      this.limits := limits;
      attempts, lockouts := map[], map[];
    }

    /** The list comprehension that keeps timestamps inside the window. */
    static method KeepAfter(times: seq<real>, cutoff: real) returns (kept: seq<real>)
      ensures kept == After(times, cutoff)
    {
      kept := [];
      for i := 0 to |times|
        invariant kept == After(times[..i], cutoff)
      {
        assert times[..i + 1][..i] == times[..i];
        if times[i] > cutoff {
          kept := kept + [times[i]];
        }
      }
      assert times[..|times|] == times;
    }

    method IsRateLimited(key: Key, now: real) returns (limited: bool, retryAfter: int)
      modifies this
      ensures var o := Check(limits, old(View()), key, now);
              View() == o.tables && Verdict(limited, retryAfter) == o.verdict
    {
      if key in lockouts {
        var until := lockouts[key];
        if now < until {
          return true, Max(1, Ceil(until - now));
        }
        lockouts := lockouts - {key};
        attempts := attempts - {key};
      }
      var cutoff := now - limits.window as real;
      if key in attempts {
        var valid := KeepAfter(attempts[key], cutoff);
        if valid != [] {
          attempts := attempts[key := valid];
        } else {
          attempts := attempts - {key};
        }
        if |valid| >= limits.maxAttempts {
          lockouts := lockouts[key := now + limits.cooldown as real];
          return true, limits.cooldown;
        }
      }
      return false, 0;
    }

    method RecordFailedAttempt(key: Key, now: real) returns (locked: bool, retryAfter: int)
      modifies this
      ensures var o := RecordFailure(limits, old(View()), key, now);
              View() == o.tables && Verdict(locked, retryAfter) == o.verdict
    {
      var cutoff := now - limits.window as real;
      var existing := KeepAfter(if key in attempts then attempts[key] else [], cutoff);
      existing := existing + [now];
      attempts := attempts[key := existing];
      if |existing| >= limits.maxAttempts {
        lockouts := lockouts[key := now + limits.cooldown as real];
        return true, limits.cooldown;
      }
      return false, 0;
    }

    method RecordSuccessfulAttempt(key: Key)
      modifies this
      ensures View() == RecordSuccess(old(View()), key)
    {
      attempts := attempts - {key};
      lockouts := lockouts - {key};
    }

    method GetRemainingAttempts(key: Key, now: real) returns (remaining: int)
      ensures remaining == Remaining(limits, View(), key, now)
    {
      if key in lockouts && now < lockouts[key] {
        return 0;
      }
      var cutoff := now - limits.window as real;
      var existing := KeepAfter(if key in attempts then attempts[key] else [], cutoff);
      return Max(0, limits.maxAttempts - |existing|);
    }

    method Reset()
      modifies this
      ensures View() == EMPTY
    {
      attempts, lockouts := map[], map[];
    }
  }

  // ------------------------------------------------------- windows of timestamps

  ghost predicate Sorted(times: seq<real>) {
    forall i, j :: 0 <= i <= j < |times| ==> times[i] <= times[j]
  }

  lemma AfterSnoc(times: seq<real>, t: real, cutoff: real)
    ensures After(times + [t], cutoff) == After(times, cutoff) + if t > cutoff then [t] else []
  {
    assert (times + [t])[..|times|] == times;
  }

  /** Filtering twice is filtering once with the later cutoff. */
  lemma {:induction false} AfterTwice(times: seq<real>, early: real, late: real)
    requires early <= late
    ensures After(After(times, early), late) == After(times, late)
  {
    if times != [] {
      var init, last := times[..|times| - 1], times[|times| - 1];
      AfterTwice(init, early, late);
      if last > early {
        AfterSnoc(After(init, early), last, late);
      } else {
        assert After(times, early) == After(init, early);
      }
    }
  }

  /** Of sorted timestamps, the recent ones are a suffix. */
  lemma {:induction false} AfterIsSuffix(times: seq<real>, cutoff: real) returns (from: nat)
    requires Sorted(times)
    ensures from <= |times| && After(times, cutoff) == times[from..]
    ensures from > 0 ==> times[from - 1] <= cutoff
  {
    from := 0;
    if times != [] {
      var n := |times| - 1;
      if times[n] > cutoff {
        from := AfterIsSuffix(times[..n], cutoff);
        assert times[..n][from..] + [times[n]] == times[from..];
      } else {
        from := |times|;
        AfterNone(times, cutoff);
      }
    }
  }

  ghost predicate AllUpTo(times: seq<real>, bound: real) {
    forall i :: 0 <= i < |times| ==> times[i] <= bound
  }

  ghost predicate AllPast(times: seq<real>, bound: real) {
    forall i :: 0 <= i < |times| ==> times[i] > bound
  }

  lemma {:induction false} AfterNone(times: seq<real>, cutoff: real)
    requires AllUpTo(times, cutoff)
    ensures After(times, cutoff) == []
  {
    if times != [] {
      AfterNone(times[..|times| - 1], cutoff);
    }
  }

  lemma {:induction false} AfterAll(times: seq<real>, cutoff: real)
    requires AllPast(times, cutoff)
    ensures After(times, cutoff) == times
  {
    if times != [] {
      AfterAll(times[..|times| - 1], cutoff);
    }
  }

  lemma {:induction false} AfterBounded(times: seq<real>, cutoff: real, bound: real)
    requires AllUpTo(times, bound)
    ensures AllUpTo(After(times, cutoff), bound)
  {
    if times != [] {
      AfterBounded(times[..|times| - 1], cutoff, bound);
    }
  }

  // -------------------------------------------------------------------- isolation

  /** Two tables that agree about one key. */
  ghost predicate SameFor(s: Tables, t: Tables, key: Key) {
    && (key in s.attempts <==> key in t.attempts) && Stored(s, key) == Stored(t, key)
    && (key in s.lockouts <==> key in t.lockouts)
    && (key in s.lockouts ==> s.lockouts[key] == t.lockouts[key])
  }

  /** An operation on one key changes nothing about another, and what it answers and
      stores for its own key does not depend on the others. */
  lemma KeysAreIsolated(l: Limits, s: Tables, t: Tables, key: Key, other: Key, now: real)
    requires other != key && SameFor(s, t, key)
    ensures SameFor(s, Check(l, s, key, now).tables, other)
    ensures SameFor(s, RecordFailure(l, s, key, now).tables, other)
    ensures SameFor(s, RecordSuccess(s, key), other)
    ensures Check(l, s, key, now).verdict == Check(l, t, key, now).verdict
    ensures SameFor(Check(l, s, key, now).tables, Check(l, t, key, now).tables, key)
    ensures RecordFailure(l, s, key, now).verdict == RecordFailure(l, t, key, now).verdict
    ensures SameFor(RecordFailure(l, s, key, now).tables, RecordFailure(l, t, key, now).tables, key)
    ensures Remaining(l, s, key, now) == Remaining(l, t, key, now)
  {
  }

  // ------------------------------------------------------------ exact retry times

  lemma CeilIsLeast(x: real, n: int)
    ensures n as real >= x <==> n >= Ceil(x)
  {
  }

  /** Retry-after is exact: with no call in between, waiting w whole seconds is refused
      exactly when w is smaller than the returned number. */
  lemma RetryAfterIsExact(l: Limits, s: Tables, key: Key, now: real, wait: nat)
    requires Check(l, s, key, now).verdict.limited
    ensures var o := Check(l, s, key, now);
            Check(l, o.tables, key, now + wait as real).verdict.limited <==> wait < o.verdict.retryAfter
  {
    var o := Check(l, s, key, now);
    if LockedAt(s, key, now) {
      CeilIsLeast(s.lockouts[key] - now, wait);
    }
  }

  /** The record call that locks a key out answers consistently: from then on the check
      refuses exactly the waits below the returned number, and at once it repeats it. */
  lemma RecordIsConsistent(l: Limits, s: Tables, key: Key, now: real, wait: nat)
    requires RecordFailure(l, s, key, now).verdict.limited
    ensures var o := RecordFailure(l, s, key, now);
            && (Check(l, o.tables, key, now + wait as real).verdict.limited <==> wait < o.verdict.retryAfter)
            && (o.verdict.retryAfter > 0 ==> Check(l, o.tables, key, now).verdict == o.verdict)
  {
    var o := RecordFailure(l, s, key, now);
    CeilIsLeast(o.tables.lockouts[key] - now, l.cooldown - 1);
    CeilIsLeast(o.tables.lockouts[key] - now, l.cooldown);
  }

  /** On any tables and for any configuration, the check refuses exactly under a lockout
      in force, or if no lockout is stored and the window holds the maximum; then it locks
      the key out from now on. */
  lemma CheckDecides(l: Limits, s: Tables, key: Key, now: real)
    ensures var o := Check(l, s, key, now);
            var full := key in s.attempts && key !in s.lockouts
                        && |After(s.attempts[key], now - l.window as real)| >= l.maxAttempts;
            && (o.verdict.limited <==> LockedAt(s, key, now) || full)
            && (full ==> key in o.tables.lockouts && o.tables.lockouts[key] == now + l.cooldown as real
                         && o.verdict.retryAfter == l.cooldown)
            && (!o.verdict.limited ==> key !in o.tables.lockouts && o.verdict.retryAfter == 0)
  {
  }
}
