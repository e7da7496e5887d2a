/** The limiter over whole runs: it refines a reference limiter that never prunes
    anything, its two views agree, and failures admitted by the login handler are
    spread out in time. */
module LimiterRuns {
  import opened Common
  import opened Limiter

  // ------------------------------------------------------------------------ runs

  /** Calls in any order, on any keys. */
  datatype Call =
    | IsLimited(key: Key, now: real)
    | Failed(key: Key, now: real)
    | Succeeded(key: Key)
    | Reset

  function Step(l: Limits, s: Tables, call: Call): Tables {
    match call
    case IsLimited(key, now) => Check(l, s, key, now).tables
    case Failed(key, now) => RecordFailure(l, s, key, now).tables
    case Succeeded(key) => RecordSuccess(s, key)
    case Reset => EMPTY
  }

  function TablesAfter(l: Limits, calls: seq<Call>): Tables {
    if calls == [] then EMPTY else Step(l, TablesAfter(l, calls[..|calls| - 1]), calls[|calls| - 1])
  }

  predicate Timed(call: Call) {
    call.IsLimited? || call.Failed?
  }

  /** The calls' times do not decrease and do not pass `now`. */
  ghost predicate InTime(calls: seq<Call>, now: real) {
    calls != [] ==>
      var last := calls[|calls| - 1];
      if Timed(last) then last.now <= now && InTime(calls[..|calls| - 1], last.now)
      else InTime(calls[..|calls| - 1], now)
  }

  // ---------------------------------------------------------- the reference limiter

  /** One key of a limiter that keeps every failure since the key was last cleared. */
  datatype Ideal = Ideal(failures: seq<real>, lockedUntil: Lockout)
  datatype Lockout = Open | Until(time: real)

  const CLEARED := Ideal([], Open)

  predicate IdealLimited(i: Ideal, now: real) {
    i.lockedUntil.Until? && now < i.lockedUntil.time
  }

  function IdealFailed(l: Limits, i: Ideal, now: real): Ideal {
    var count := |After(i.failures, now - l.window as real)| + 1;
    Ideal(i.failures + [now],
          if count >= l.maxAttempts then Until(now + l.cooldown as real) else i.lockedUntil)
  }

  /** A key is cleared by a success, a reset, or a check after its lockout has expired. */
  function IdealStep(l: Limits, i: Ideal, key: Key, call: Call): Ideal {
    match call
    case IsLimited(k, now) => if k == key && i.lockedUntil.Until? && i.lockedUntil.time <= now then CLEARED else i
    case Failed(k, now) => if k == key then IdealFailed(l, i, now) else i
    case Succeeded(k) => if k == key then CLEARED else i
    case Reset => CLEARED
  }

  function IdealAfter(l: Limits, calls: seq<Call>, key: Key): Ideal {
    if calls == [] then CLEARED
    else IdealStep(l, IdealAfter(l, calls[..|calls| - 1], key), key, calls[|calls| - 1])
  }

  /** What the tables say about one key at time `last`, against the reference. */
  ghost predicate Refines(l: Limits, s: Tables, key: Key, i: Ideal, last: real) {
    && (key in s.lockouts <==> i.lockedUntil.Until?)
    && (key in s.lockouts ==> s.lockouts[key] == i.lockedUntil.time)
    && SameWindows(l, Stored(s, key), i.failures, last)
    && AllUpTo(Stored(s, key), last)
    && (|Stored(s, key)| < l.maxAttempts
        || (key in s.lockouts && AllUpTo(Stored(s, key), s.lockouts[key] - l.cooldown as real)))
  }

  /** Equal windows now and at every later time. */
  ghost predicate SameWindows(l: Limits, stored: seq<real>, failures: seq<real>, last: real) {
    forall cutoff: real {:trigger After(stored, cutoff)} ::
      cutoff >= last - l.window as real ==> After(stored, cutoff) == After(failures, cutoff)
  }

  lemma WindowsPruned(l: Limits, stored: seq<real>, failures: seq<real>, last: real, now: real)
    requires SameWindows(l, stored, failures, last) && last <= now
    ensures SameWindows(l, After(stored, now - l.window as real), failures, now)
  {
    var pruned := After(stored, now - l.window as real);
    forall cutoff: real | cutoff >= now - l.window as real
      ensures After(pruned, cutoff) == After(failures, cutoff)
    {
      AfterTwice(stored, now - l.window as real, cutoff);
      assert After(stored, cutoff) == After(failures, cutoff);
    }
  }

  lemma WindowsSnoc(l: Limits, stored: seq<real>, failures: seq<real>, last: real, t: real)
    requires SameWindows(l, stored, failures, last)
    ensures SameWindows(l, stored + [t], failures + [t], last)
  {
    forall cutoff: real | cutoff >= last - l.window as real
      ensures After(stored + [t], cutoff) == After(failures + [t], cutoff)
    {
      AfterSnoc(stored, t, cutoff);
      AfterSnoc(failures, t, cutoff);
      assert After(stored, cutoff) == After(failures, cutoff);
    }
  }

  lemma Later(l: Limits, s: Tables, key: Key, i: Ideal, last: real, now: real)
    requires Refines(l, s, key, i, last) && last <= now
    ensures Refines(l, s, key, i, now)
  {
  }

  lemma FailedRefines(l: Limits, s: Tables, key: Key, i: Ideal, now: real)
    requires l.maxAttempts >= 1 && Refines(l, s, key, i, now)
    ensures Refines(l, RecordFailure(l, s, key, now).tables, key, IdealFailed(l, i, now), now)
    ensures RecordFailure(l, s, key, now).verdict.limited <==>
            |After(i.failures, now - l.window as real)| + 1 >= l.maxAttempts
  {
    FailedWindows(l, Stored(s, key), i.failures, now);
    FailedStored(l, s, key, now);
  }

  lemma FailedWindows(l: Limits, stored: seq<real>, failures: seq<real>, now: real)
    requires SameWindows(l, stored, failures, now) && AllUpTo(stored, now)
    ensures var cutoff := now - l.window as real;
            && After(stored, cutoff) == After(failures, cutoff)
            && SameWindows(l, After(stored, cutoff) + [now], failures + [now], now)
            && AllUpTo(After(stored, cutoff) + [now], now)
  {
    var cutoff := now - l.window as real;
    assert After(stored, cutoff) == After(failures, cutoff);
    WindowsPruned(l, stored, failures, now, now);
    WindowsSnoc(l, After(stored, cutoff), failures, now, now);
    AfterBounded(stored, cutoff, now);
  }

  lemma FailedStored(l: Limits, s: Tables, key: Key, now: real)
    ensures var o, stored := RecordFailure(l, s, key, now), After(Stored(s, key), now - l.window as real) + [now];
            && Stored(o.tables, key) == stored
            && (o.verdict.limited <==> |stored| >= l.maxAttempts)
            && o.tables.lockouts == if o.verdict.limited then s.lockouts[key := now + l.cooldown as real] else s.lockouts
  {
  }

  /** The check agrees with the reference, and since a key without a lockout stores fewer
      than the maximum, the branch that locks out again is never taken. */
  lemma CheckRefines(l: Limits, s: Tables, key: Key, i: Ideal, now: real)
    requires l.maxAttempts >= 1 && Refines(l, s, key, i, now)
    ensures Refines(l, Check(l, s, key, now).tables, key, IdealStep(l, i, key, IsLimited(key, now)), now)
    ensures Check(l, s, key, now).verdict.limited <==> IdealLimited(i, now)
    ensures Check(l, s, key, now).verdict.limited ==> LockedAt(s, key, now)
  {
    var stored, cutoff := Stored(s, key), now - l.window as real;
    WindowsPruned(l, stored, i.failures, now, now);
    AfterBounded(stored, cutoff, now);
    assert After([], cutoff) == [];
  }

  lemma OtherKey(l: Limits, s: Tables, t: Tables, key: Key, i: Ideal, now: real)
    requires Refines(l, s, key, i, now) && SameFor(s, t, key)
    ensures Refines(l, t, key, i, now)
  {
  }

  lemma ClearedRefines(l: Limits, s: Tables, key: Key, now: real)
    requires l.maxAttempts >= 1 && key !in s.attempts && key !in s.lockouts
    ensures Refines(l, s, key, CLEARED, now)
  {
  }

  lemma StepRefines(l: Limits, s: Tables, key: Key, i: Ideal, call: Call, now: real)
    requires l.maxAttempts >= 1 && Refines(l, s, key, i, now)
    requires Timed(call) ==> call.now == now
    ensures Refines(l, Step(l, s, call), key, IdealStep(l, i, key, call), now)
  {
    match call
    case IsLimited(k, _) =>
      if k == key {
        CheckRefines(l, s, key, i, now);
      } else {
        KeysAreIsolated(l, s, s, k, key, now);
        OtherKey(l, s, Step(l, s, call), key, i, now);
      }
    case Failed(k, _) =>
      if k == key {
        FailedRefines(l, s, key, i, now);
      } else {
        KeysAreIsolated(l, s, s, k, key, now);
        OtherKey(l, s, Step(l, s, call), key, i, now);
      }
    case Succeeded(k) =>
      if k == key {
        ClearedRefines(l, RecordSuccess(s, key), key, now);
      } else {
        KeysAreIsolated(l, s, s, k, key, now);
        OtherKey(l, s, RecordSuccess(s, k), key, i, now);
      }
    case Reset =>
      ClearedRefines(l, EMPTY, key, now);
  }

  /** The limiter refines its history, for any order of calls in time. */
  lemma {:induction false} RunRefines(l: Limits, calls: seq<Call>, key: Key, now: real)
    requires l.maxAttempts >= 1 && InTime(calls, now)
    ensures Refines(l, TablesAfter(l, calls), key, IdealAfter(l, calls, key), now)
  {
    if calls == [] {
      ClearedRefines(l, EMPTY, key, now);
    } else {
      var init, call := calls[..|calls| - 1], calls[|calls| - 1];
      var when := if Timed(call) then call.now else now;
      RunRefines(l, init, key, when);
      StepRefines(l, TablesAfter(l, init), key, IdealAfter(l, init, key), call, when);
      Later(l, TablesAfter(l, calls), key, IdealAfter(l, calls, key), when, now);
    }
  }

  /** All three answers are those of the reference limiter, computed from the failures in
      the current window since the key was last cleared. */
  ghost predicate AnswersFollow(l: Limits, s: Tables, key: Key, i: Ideal, now: real) {
    var recent := After(i.failures, now - l.window as real);
    && (Check(l, s, key, now).verdict.limited <==> IdealLimited(i, now))
    && (RecordFailure(l, s, key, now).verdict.limited <==> |recent| + 1 >= l.maxAttempts)
    && Remaining(l, s, key, now) == (if IdealLimited(i, now) then 0 else Max(0, l.maxAttempts - |recent|))
  }

  /** Without a lockout fewer than the maximum are stored, and the check refuses only
      under a lockout that was already in force: it never locks out again. */
  ghost predicate NeverRelocks(l: Limits, s: Tables, key: Key, now: real) {
    && (key !in s.lockouts ==> |Stored(s, key)| < l.maxAttempts)
    && (Check(l, s, key, now).verdict.limited ==> LockedAt(s, key, now))
  }

  /** On every run in time order: the stored attempts in the current window are the
      failures in that window since the key was last cleared, and all answers follow. */
  lemma AnswersRefineHistory(l: Limits, calls: seq<Call>, key: Key, now: real)
    requires l.maxAttempts >= 1 && InTime(calls, now)
    ensures var s, i, cutoff := TablesAfter(l, calls), IdealAfter(l, calls, key), now - l.window as real;
            && After(Stored(s, key), cutoff) == After(i.failures, cutoff)
            && AnswersFollow(l, s, key, i, now) && NeverRelocks(l, s, key, now)
  {
    RunRefines(l, calls, key, now);
    RefinedAnswers(l, TablesAfter(l, calls), key, IdealAfter(l, calls, key), now);
  }

  lemma RefinedAnswers(l: Limits, s: Tables, key: Key, i: Ideal, now: real)
    requires l.maxAttempts >= 1 && Refines(l, s, key, i, now)
    ensures var cutoff := now - l.window as real; After(Stored(s, key), cutoff) == After(i.failures, cutoff)
    ensures AnswersFollow(l, s, key, i, now) && NeverRelocks(l, s, key, now)
  {
    CheckRefines(l, s, key, i, now);
    FailedRefines(l, s, key, i, now);
  }

  // ------------------------------------------------------------------- two views

  ghost predicate ViewsAgree(l: Limits, s: Tables, key: Key, now: real) {
    Remaining(l, s, key, now) == 0 <==> Check(l, s, key, now).verdict.limited
  }

  /** When no attempt can outlive the lockout it caused, the two views agree on every run. */
  lemma ViewsAgreeOnRuns(l: Limits, calls: seq<Call>, key: Key, now: real)
    requires l.maxAttempts >= 1 && InTime(calls, now)
    requires l.cooldown >= l.window || l.window <= 0
    ensures ViewsAgree(l, TablesAfter(l, calls), key, now)
  {
    RunRefines(l, calls, key, now);
    RefinedViewsAgree(l, TablesAfter(l, calls), key, IdealAfter(l, calls, key), now);
  }

  lemma RefinedViewsAgree(l: Limits, s: Tables, key: Key, i: Ideal, now: real)
    requires l.maxAttempts >= 1 && Refines(l, s, key, i, now) && (l.cooldown >= l.window || l.window <= 0)
    ensures ViewsAgree(l, s, key, now)
  {
    CheckRefines(l, s, key, i, now);
    if !LockedAt(s, key, now) && |Stored(s, key)| >= l.maxAttempts {
      AfterNone(Stored(s, key), now - l.window as real);
    }
  }

  /** Failures of one key, all at time zero. */
  function Burst(key: Key, n: nat): seq<Call> {
    if n == 0 then [] else Burst(key, n - 1) + [Failed(key, 0.0)]
  }

  ghost predicate AllZero(times: seq<real>, n: nat) {
    |times| == n && forall j :: 0 <= j < n ==> times[j] == 0.0
  }

  /** After n failures at time zero; at the maximum, the key is locked out. */
  ghost predicate BurstAt(l: Limits, s: Tables, key: Key, n: nat) {
    && AllZero(Stored(s, key), n)
    && (n == l.maxAttempts && n > 0 ==> key in s.lockouts && s.lockouts[key] == l.cooldown as real)
  }

  lemma {:induction false} BurstStores(l: Limits, key: Key, n: nat)
    requires n <= l.maxAttempts && l.window > 0
    ensures InTime(Burst(key, n), 0.0)
    ensures BurstAt(l, TablesAfter(l, Burst(key, n)), key, n)
  {
    if n > 0 {
      var init := Burst(key, n - 1);
      BurstStores(l, key, n - 1);
      assert Burst(key, n)[..|init|] == init;
      BurstGrows(l, TablesAfter(l, init), key, n - 1);
    }
  }

  lemma BurstGrows(l: Limits, s: Tables, key: Key, n: nat)
    requires BurstAt(l, s, key, n) && n < l.maxAttempts && l.window > 0
    ensures BurstAt(l, RecordFailure(l, s, key, 0.0).tables, key, n + 1)
  {
    AfterAll(Stored(s, key), 0.0 - l.window as real);
  }

  /** Otherwise they disagree: after enough failures at once, at the moment the lockout
      has expired but the failures are still in the window. */
  lemma ViewsDisagree(l: Limits, key: Key) returns (calls: seq<Call>, now: real)
    requires l.maxAttempts >= 1 && l.cooldown < l.window && l.window > 0
    ensures InTime(calls, now) && !ViewsAgree(l, TablesAfter(l, calls), key, now)
  {
    calls := Burst(key, l.maxAttempts);
    now := Max(l.cooldown, 0) as real;
    BurstStores(l, key, l.maxAttempts);
    Sooner(calls, 0.0, now);
    ExpiredButRecent(l, TablesAfter(l, calls), key, now);
  }

  lemma ExpiredButRecent(l: Limits, s: Tables, key: Key, now: real)
    requires l.maxAttempts >= 1 && AllZero(Stored(s, key), l.maxAttempts)
    requires key in s.lockouts && s.lockouts[key] <= now < l.window as real
    ensures !ViewsAgree(l, s, key, now)
  {
    AfterAll(Stored(s, key), now - l.window as real);
  }

  lemma {:induction false} Sooner(calls: seq<Call>, early: real, late: real)
    requires InTime(calls, early) && early <= late
    ensures InTime(calls, late)
  {
    if calls != [] && !Timed(calls[|calls| - 1]) {
      Sooner(calls[..|calls| - 1], early, late);
    }
  }

  /** `get_remaining_attempts` is zero exactly when `is_rate_limited` refuses, on every
      run, if and only if the cooldown is at least the window or the window is empty. */
  lemma ViewsAgreeIff(l: Limits, key: Key)
    requires l.maxAttempts >= 1
    ensures (forall calls: seq<Call>, now: real :: InTime(calls, now) ==> ViewsAgree(l, TablesAfter(l, calls), key, now))
            <==> l.cooldown >= l.window || l.window <= 0
  {
    if l.cooldown >= l.window || l.window <= 0 {
      forall calls: seq<Call>, now: real | InTime(calls, now)
        ensures ViewsAgree(l, TablesAfter(l, calls), key, now)
      {
        ViewsAgreeOnRuns(l, calls, key, now);
      }
    } else {
      var calls, now := ViewsDisagree(l, key);
    }
  }

  // ------------------------------------------------------------ the login handler

  /** What a login attempt turns out to be, if the check admits it. `seen` is the clock
      when the check reads it, `recorded` when the record call does, after the password
      has been verified. (For an attempt the check refuses there is no second reading,
      and `recorded` may be taken to be `seen`.) */
  datatype Login =
    | BadCredentials(key: Key, seen: real, recorded: real)
    | DisabledAccount(key: Key, seen: real)
    | GoodCredentials(key: Key, seen: real)
    | AdminReset

  /** The last clock reading of an attempt. */
  function Finished(login: Login): real
    requires !login.AdminReset?
  {
    if login.BadCredentials? then login.recorded else login.seen
  }

  /** Tables and, for one key, the times at which the failures admitted since its last
      success or reset were recorded. The handler checks first and records afterwards;
      no other request is served in between. */
  datatype LoginState = LoginState(tables: Tables, admitted: seq<real>)

  function HandleLogin(l: Limits, s: LoginState, key: Key, login: Login): LoginState {
    if login.AdminReset? then LoginState(EMPTY, [])
    else
      var o := Check(l, s.tables, login.key, login.seen);
      if o.verdict.limited || login.DisabledAccount? then s.(tables := o.tables)
      else if login.BadCredentials? then
        LoginState(RecordFailure(l, o.tables, login.key, login.recorded).tables,
                   if login.key == key then s.admitted + [login.recorded] else s.admitted)
      else
        LoginState(RecordSuccess(o.tables, login.key), if login.key == key then [] else s.admitted)
  }

  /** The handler itself, on the limiter object: what it leaves in the limiter is what
      HandleLogin says, and `admitted` is whether the request got past the check. */
  method ServeLogin(limiter: AuthRateLimiter, login: Login) returns (admitted: bool)
    requires !login.AdminReset?
    modifies limiter
    ensures limiter.View() == HandleLogin(limiter.limits, LoginState(old(limiter.View()), []), login.key, login).tables
    ensures admitted <==> !Check(limiter.limits, old(limiter.View()), login.key, login.seen).verdict.limited
  {
    var limited, retryAfter := limiter.IsRateLimited(login.key, login.seen);
    admitted := !limited;
    if limited {
      return;
    }
    if login.BadCredentials? {
      var _, _ := limiter.RecordFailedAttempt(login.key, login.recorded);
    } else if login.GoodCredentials? {
      limiter.RecordSuccessfulAttempt(login.key);
    }
  }

  function Logins(l: Limits, logins: seq<Login>, key: Key): LoginState {
    if logins == [] then LoginState(EMPTY, [])
    else HandleLogin(l, Logins(l, logins[..|logins| - 1], key), key, logins[|logins| - 1])
  }

  /** The clock readings of all the attempts, two for a failed one, do not decrease and
      do not pass `now`. */
  ghost predicate LoginsInTime(logins: seq<Login>, now: real) {
    logins != [] ==>
      var last := logins[|logins| - 1];
      if last.AdminReset? then LoginsInTime(logins[..|logins| - 1], now)
      else last.seen <= Finished(last) <= now && LoginsInTime(logins[..|logins| - 1], last.seen)
  }

  /** The span that max_attempts + 1 admitted failures must cover. */
  function Spacing(l: Limits): real {
    if l.window <= l.cooldown then l.window as real else l.cooldown as real
  }

  ghost predicate Spread(l: Limits, times: seq<real>)
    requires l.maxAttempts >= 1
  {
    forall i, j {:trigger times[i], times[j]} ::
      0 <= i && i + l.maxAttempts <= j < |times| ==> times[j] - times[i] >= Spacing(l)
  }

  /** The stored attempts are the latest admitted failures and the others are old. */
  ghost predicate Recent(l: Limits, stored: seq<real>, admitted: seq<real>, now: real) {
    var older := |admitted| - |stored|;
    && older >= 0 && stored == admitted[older..]
    && (older > 0 ==> admitted[older - 1] <= now - Spacing(l))
  }

  lemma PruneRecent(l: Limits, stored: seq<real>, admitted: seq<real>, now: real)
    requires Sorted(admitted) && Recent(l, stored, admitted, now)
    ensures Recent(l, After(stored, now - l.window as real), admitted, now)
  {
    SuffixSorted(admitted, |admitted| - |stored|);
    var from := AfterIsSuffix(stored, now - l.window as real);
    DropRecent(l, stored, admitted, now, from);
  }

  lemma DropRecent(l: Limits, stored: seq<real>, admitted: seq<real>, now: real, from: nat)
    requires Recent(l, stored, admitted, now) && from <= |stored|
    requires from > 0 ==> stored[from - 1] <= now - l.window as real
    ensures Recent(l, stored[from..], admitted, now)
  {
    var older := |admitted| - |stored|;
    assert stored[from..] == admitted[older + from..];
    if from > 0 {
      assert admitted[older + from - 1] == stored[from - 1];
    }
  }

  lemma SuffixSorted(times: seq<real>, k: nat)
    requires Sorted(times) && k <= |times|
    ensures Sorted(times[k..])
  {
  }

  lemma SnocRecent(l: Limits, stored: seq<real>, admitted: seq<real>, now: real)
    requires Recent(l, stored, admitted, now)
    ensures Recent(l, stored + [now], admitted + [now], now)
  {
    var older := |admitted| - |stored|;
    assert stored + [now] == (admitted + [now])[older..];
  }

  lemma SnocSpread(l: Limits, stored: seq<real>, admitted: seq<real>, now: real)
    requires l.maxAttempts >= 1 && Spread(l, admitted) && Sorted(admitted)
    requires Recent(l, stored, admitted, now) && |stored| < l.maxAttempts
    ensures Spread(l, admitted + [now])
  {
    var longer := admitted + [now];
    forall i, j | 0 <= i && i + l.maxAttempts <= j < |longer|
      ensures longer[j] - longer[i] >= Spacing(l)
    {
      if j == |admitted| {
        assert longer[i] == admitted[i] <= admitted[|admitted| - |stored| - 1];
      } else {
        assert longer[i] == admitted[i] && longer[j] == admitted[j];
      }
    }
  }

  lemma SnocSorted(times: seq<real>, now: real)
    requires Sorted(times) && AllUpTo(times, now)
    ensures Sorted(times + [now]) && AllUpTo(times + [now], now)
  {
  }

  /** Without a lockout fewer than the maximum are stored; a lockout dates from the
      latest admitted failure. */
  ghost predicate LoginInv(l: Limits, s: Tables, key: Key, admitted: seq<real>, now: real) {
    && Sorted(admitted) && AllUpTo(admitted, now)
    && (key in s.lockouts ==>
          admitted != [] && s.lockouts[key] == admitted[|admitted| - 1] + l.cooldown as real)
    && (key !in s.lockouts ==>
          |Stored(s, key)| < l.maxAttempts && Recent(l, Stored(s, key), admitted, now))
  }

  lemma CheckKeepsLogin(l: Limits, s: Tables, key: Key, admitted: seq<real>, now: real)
    requires l.maxAttempts >= 1 && LoginInv(l, s, key, admitted, now)
    ensures var o := Check(l, s, key, now);
            && LoginInv(l, o.tables, key, admitted, now)
            && (!o.verdict.limited ==> key !in o.tables.lockouts)
  {
    if key !in s.lockouts {
      PruneRecent(l, Stored(s, key), admitted, now);
    }
  }

  lemma FailureKeepsLogin(l: Limits, s: Tables, key: Key, admitted: seq<real>, now: real)
    requires l.maxAttempts >= 1 && LoginInv(l, s, key, admitted, now) && key !in s.lockouts
    requires Spread(l, admitted)
    ensures LoginInv(l, RecordFailure(l, s, key, now).tables, key, admitted + [now], now)
    ensures Spread(l, admitted + [now])
  {
    FailureSpreads(l, Stored(s, key), admitted, now);
    FailedStored(l, s, key, now);
  }

  lemma FailureSpreads(l: Limits, stored: seq<real>, admitted: seq<real>, now: real)
    requires l.maxAttempts >= 1 && |stored| < l.maxAttempts && Spread(l, admitted)
    requires Sorted(admitted) && AllUpTo(admitted, now) && Recent(l, stored, admitted, now)
    ensures Recent(l, After(stored, now - l.window as real) + [now], admitted + [now], now)
    ensures Spread(l, admitted + [now]) && Sorted(admitted + [now]) && AllUpTo(admitted + [now], now)
  {
    var pruned := After(stored, now - l.window as real);
    PruneRecent(l, stored, admitted, now);
    SnocRecent(l, pruned, admitted, now);
    SnocSpread(l, pruned, admitted, now);
    SnocSorted(admitted, now);
  }

  lemma OtherLogin(l: Limits, s: Tables, t: Tables, key: Key, admitted: seq<real>, now: real)
    requires LoginInv(l, s, key, admitted, now) && SameFor(s, t, key)
    ensures LoginInv(l, t, key, admitted, now)
  {
  }

  lemma LoginElsewhere(l: Limits, s: LoginState, key: Key, login: Login)
    requires !login.AdminReset? && login.key != key
    ensures var s' := HandleLogin(l, s, key, login);
            SameFor(s.tables, s'.tables, key) && s'.admitted == s.admitted
  {
    var o := Check(l, s.tables, login.key, login.seen);
    KeysAreIsolated(l, s.tables, s.tables, login.key, key, login.seen);
    KeysAreIsolated(l, o.tables, o.tables, login.key, key, Finished(login));
  }

  lemma LoginStep(l: Limits, s: LoginState, key: Key, login: Login, now: real)
    requires l.maxAttempts >= 1 && Spread(l, s.admitted)
    requires LoginInv(l, s.tables, key, s.admitted, if login.AdminReset? then now else login.seen)
    requires !login.AdminReset? ==> login.seen <= Finished(login) == now
    ensures var s' := HandleLogin(l, s, key, login);
            LoginInv(l, s'.tables, key, s'.admitted, now) && Spread(l, s'.admitted)
  {
    if !login.AdminReset? {
      if login.key == key {
        OwnLogin(l, s, key, login);
      } else {
        LoginElsewhere(l, s, key, login);
        LoginLater(l, s.tables, key, s.admitted, login.seen, now);
        OtherLogin(l, s.tables, HandleLogin(l, s, key, login).tables, key, s.admitted, now);
      }
    }
  }

  /** One attempt on the key itself: the check at one reading, the record at a later one. */
  lemma OwnLogin(l: Limits, s: LoginState, key: Key, login: Login)
    requires l.maxAttempts >= 1 && Spread(l, s.admitted) && !login.AdminReset? && login.key == key
    requires LoginInv(l, s.tables, key, s.admitted, login.seen) && login.seen <= Finished(login)
    ensures var s' := HandleLogin(l, s, key, login);
            LoginInv(l, s'.tables, key, s'.admitted, Finished(login)) && Spread(l, s'.admitted)
  {
    var o := Check(l, s.tables, key, login.seen);
    CheckKeepsLogin(l, s.tables, key, s.admitted, login.seen);
    LoginLater(l, o.tables, key, s.admitted, login.seen, Finished(login));
    if !o.verdict.limited && login.BadCredentials? {
      FailureKeepsLogin(l, o.tables, key, s.admitted, login.recorded);
    }
  }

  lemma LoginLater(l: Limits, s: Tables, key: Key, admitted: seq<real>, early: real, late: real)
    requires LoginInv(l, s, key, admitted, early) && early <= late
    ensures LoginInv(l, s, key, admitted, late)
  {
  }

  lemma {:induction false} LoginRun(l: Limits, logins: seq<Login>, key: Key, now: real)
    requires l.maxAttempts >= 1 && LoginsInTime(logins, now)
    ensures var s := Logins(l, logins, key);
            LoginInv(l, s.tables, key, s.admitted, now) && Spread(l, s.admitted)
  {
    if logins != [] {
      var init, login := logins[..|logins| - 1], logins[|logins| - 1];
      LoginRun(l, init, key, if login.AdminReset? then now else login.seen);
      var done := if login.AdminReset? then now else Finished(login);
      LoginStep(l, Logins(l, init, key), key, login, done);
      var s := Logins(l, logins, key);
      LoginLater(l, s.tables, key, s.admitted, done, now);
    }
  }

  /** The rate limit over whole runs, whatever time passes between each check and its
      record: any max_attempts + 1 admitted failures of one key, with no success or reset
      in between, span at least the smaller of the window and the cooldown. */
  lemma AdmittedFailuresAreSpread(l: Limits, logins: seq<Login>, key: Key, now: real, i: nat, j: nat)
    requires l.maxAttempts >= 1 && LoginsInTime(logins, now)
    requires i + l.maxAttempts <= j < |Logins(l, logins, key).admitted|
    ensures var times := Logins(l, logins, key).admitted;
            times[j] - times[i] >= l.window as real || times[j] - times[i] >= l.cooldown as real
  {
    LoginRun(l, logins, key, now);
    var times := Logins(l, logins, key).admitted;
    assert times[j] - times[i] >= Spacing(l);
  }

  // ---------------------------------------------------------- what clears a key

  /** The check lets the attempt through. */
  predicate Admitted(l: Limits, s: Tables, login: Login) {
    !login.AdminReset? && !Check(l, s, login.key, login.seen).verdict.limited
  }

  /** After an admitted good login the key has all its attempts again, at every instant,
      and every check admits it; no other key notices. */
  lemma GoodLoginClears(l: Limits, s: LoginState, key: Key, seen: real, other: Key, now: real)
    requires Admitted(l, s.tables, GoodCredentials(key, seen))
    ensures var s' := HandleLogin(l, s, key, GoodCredentials(key, seen));
            && s'.admitted == [] && key !in s'.tables.attempts && key !in s'.tables.lockouts
            && Remaining(l, s'.tables, key, now) == Max(0, l.maxAttempts)
            && !Check(l, s'.tables, key, now).verdict.limited
            && (other != key ==> SameFor(s.tables, s'.tables, other))
  {
    if other != key {
      LoginElsewhere(l, s, other, GoodCredentials(key, seen));
    }
  }

  /** Attempt i is a reset, or an admitted good login of the key. */
  predicate ClearsAt(l: Limits, logins: seq<Login>, key: Key, i: nat)
    requires i < |logins|
  {
    || logins[i].AdminReset?
    || (logins[i].GoodCredentials? && logins[i].key == key
        && Admitted(l, Logins(l, logins[..i], key).tables, logins[i]))
  }

  /** When the failures of the key admitted from attempt `from` on were recorded. */
  function FailuresFrom(l: Limits, logins: seq<Login>, key: Key, from: nat): seq<real> {
    if |logins| <= from then []
    else
      var init, last := logins[..|logins| - 1], logins[|logins| - 1];
      FailuresFrom(l, init, key, from)
      + if last.BadCredentials? && last.key == key && Admitted(l, Logins(l, init, key).tables, last)
        then [last.recorded] else []
  }

  /** Nothing before attempt `from` counts: it follows a clearing attempt, or is the first,
      and nothing from there on clears the key. */
  ghost predicate LastCleared(l: Limits, logins: seq<Login>, key: Key, from: nat) {
    && from <= |logins| && (from > 0 ==> ClearsAt(l, logins, key, from - 1))
    && forall i {:trigger ClearsAt(l, logins, key, i)} :: from <= i < |logins| ==> !ClearsAt(l, logins, key, i)
  }

  lemma ClearsEarlier(l: Limits, logins: seq<Login>, key: Key, i: nat)
    requires i + 1 < |logins|
    ensures ClearsAt(l, logins[..|logins| - 1], key, i) <==> ClearsAt(l, logins, key, i)
  {
    assert logins[..|logins| - 1][..i] == logins[..i];
  }

  /** What one attempt does to the admitted failures of a key. */
  lemma AdmittedStep(l: Limits, s: LoginState, key: Key, login: Login)
    ensures HandleLogin(l, s, key, login).admitted ==
            if login.AdminReset? || (login.GoodCredentials? && login.key == key && Admitted(l, s.tables, login)) then []
            else if login.BadCredentials? && login.key == key && Admitted(l, s.tables, login)
            then s.admitted + [login.recorded] else s.admitted
  {
  }

  lemma StillCleared(l: Limits, logins: seq<Login>, key: Key, from: nat)
    requires logins != [] && LastCleared(l, logins[..|logins| - 1], key, from)
    requires !ClearsAt(l, logins, key, |logins| - 1)
    ensures LastCleared(l, logins, key, from)
  {
    if from > 0 {
      ClearsEarlier(l, logins, key, from - 1);
    }
    forall i | from <= i < |logins|
      ensures !ClearsAt(l, logins, key, i)
    {
      if i < |logins| - 1 {
        ClearsEarlier(l, logins, key, i);
      }
    }
  }

  lemma {:induction false} AdmittedSinceCleared(l: Limits, logins: seq<Login>, key: Key) returns (from: nat)
    ensures LastCleared(l, logins, key, from)
    ensures Logins(l, logins, key).admitted == FailuresFrom(l, logins, key, from)
  {
    from := 0;
    if logins != [] {
      var last, init := |logins| - 1, logins[..|logins| - 1];
      assert logins[..last] == init;
      AdmittedStep(l, Logins(l, init, key), key, logins[last]);
      if ClearsAt(l, logins, key, last) {
        from := |logins|;
      } else {
        from := AdmittedSinceCleared(l, init, key);
        StillCleared(l, logins, key, from);
      }
    }
  }

  /** On every run, what counts against a key are its admitted failures since its last
      admitted good login or reset: a lockout dates from the latest of them, and without
      one the stored attempts are the latest of them, the others being too old to matter. */
  lemma CountsSinceCleared(l: Limits, logins: seq<Login>, key: Key, now: real) returns (from: nat)
    requires l.maxAttempts >= 1 && LoginsInTime(logins, now)
    ensures LastCleared(l, logins, key, from)
    ensures var s, since := Logins(l, logins, key).tables, FailuresFrom(l, logins, key, from);
            && (key in s.lockouts ==> since != [] && s.lockouts[key] == since[|since| - 1] + l.cooldown as real)
            && (key !in s.lockouts ==> |Stored(s, key)| < l.maxAttempts && Recent(l, Stored(s, key), since, now))
  {
    from := AdmittedSinceCleared(l, logins, key);
    LoginRun(l, logins, key, now);
  }
}
