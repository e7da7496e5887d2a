/** The synchronized clock: an offset slewed towards a target, a guard that rejects
    targets too far away, and reported times that strictly increase. Times are reals. */
module Clock {

  const SLEW_RATE: real := 0.001
  const MAX_SKEW: real := 60.0
  const TICK: real := 0.000001

  datatype ClockState = ClockState(drift: real, target: real, lastReturned: real)

  const START := ClockState(0.0, 0.0, 0.0)

  function Abs(x: real): real {
    if x >= 0.0 then x else -x
  }

  function RMin(a: real, b: real): real {
    if a <= b then a else b
  }

  function RMax(a: real, b: real): real {
    if a >= b then a else b
  }

  function Gap(s: ClockState): real {
    Abs(s.target - s.drift)
  }

  predicate AcceptsOffset(s: ClockState, offset: real) {
    Abs(offset - s.drift) <= MAX_SKEW
  }

  /** The end of a synchronization round that computed `offset`. */
  function Sync(s: ClockState, offset: real): ClockState {
    if AcceptsOffset(s, offset) then s.(target := offset) else s
  }

  /** One pass of the slew loop. */
  function Slew(s: ClockState): ClockState {
    var diff := s.target - s.drift;
    if Abs(diff) > TICK then s.(drift := s.drift + RMax(RMin(diff, SLEW_RATE), -SLEW_RATE)) else s
  }

  /** Reading the clock when the system clock shows `raw`. */
  function Report(s: ClockState, raw: real): real {
    var current := raw + s.drift;
    if current <= s.lastReturned then s.lastReturned + TICK else current
  }

  function Read(s: ClockState, raw: real): ClockState {
    s.(lastReturned := Report(s, raw))
  }

  /** The module's globals and the functions that update them. */
  class NodeClock {
    var driftOffset: real
    var targetOffset: real
    var lastReturnedTime: real

    function View(): ClockState
      reads this
    {
      ClockState(driftOffset, targetOffset, lastReturnedTime)
    }

    constructor ()
      ensures View() == START
    {
      driftOffset, targetOffset, lastReturnedTime := 0.0, 0.0, 0.0;
    }

    method GetCurrentNodeTime(raw: real) returns (current: real)
      modifies this
      ensures current == Report(old(View()), raw) && View() == Read(old(View()), raw)
    {
      current := raw + driftOffset;
      if current <= lastReturnedTime {
        current := lastReturnedTime + TICK;
      }
      lastReturnedTime := current;
    }

    /** The guard and the target update; an accepted offset also reads the clock. */
    method FinishSync(offset: real, raw: real) returns (accepted: bool)
      modifies this
      ensures accepted <==> AcceptsOffset(old(View()), offset)
      ensures View() == if accepted then Read(Sync(old(View()), offset), raw) else old(View())
    {
      if Abs(offset - driftOffset) > MAX_SKEW {
        return false;
      }
      targetOffset := offset;
      var _ := GetCurrentNodeTime(raw);
      accepted := true;
    }

    method SlewOnce()
      modifies this
      ensures View() == Slew(old(View()))
    {
      var diff := targetOffset - driftOffset;
      if Abs(diff) > TICK {
        var adjustment := RMax(RMin(diff, SLEW_RATE), -SLEW_RATE);
        driftOffset := driftOffset + adjustment;
      }
    }
  }

  // ------------------------------------------------------------------ interleaving

  datatype Event = Synced(offset: real, raw: real) | Slewed | Asked(raw: real)

  function Step(s: ClockState, e: Event): ClockState {
    match e
    case Synced(offset, raw) => if AcceptsOffset(s, offset) then Read(Sync(s, offset), raw) else s
    case Slewed => Slew(s)
    case Asked(raw) => Read(s, raw)
  }

  function After(events: seq<Event>): ClockState {
    if events == [] then START else Step(After(events[..|events| - 1]), events[|events| - 1])
  }

  /** A tick moves towards the target by at most the slew rate and never crosses it. */
  lemma SlewMovesTowards(s: ClockState)
    ensures var s' := Slew(s);
            && s'.target == s.target && s'.lastReturned == s.lastReturned
            && Abs(s'.drift - s.drift) <= 0.001
            && (s.drift <= s.target ==> s.drift <= s'.drift <= s.target)
            && (s.drift >= s.target ==> s.drift >= s'.drift >= s.target)
            && Gap(s') == if Gap(s) > 0.000001 then RMax(Gap(s) - 0.001, 0.0) else Gap(s)
  {
  }

  /** In every interleaving the offset is within the skew threshold of its target. */
  lemma {:induction false} GapBounded(events: seq<Event>)
    ensures Gap(After(events)) <= MAX_SKEW
  {
    if events != [] {
      var init := events[..|events| - 1];
      GapBounded(init);
      SlewMovesTowards(After(init));
    }
  }

  // ------------------------------------------------------------------- convergence

  function Slews(s: ClockState, n: nat): ClockState {
    if n == 0 then s else Slew(Slews(s, n - 1))
  }

  /** With a fixed target, after n ticks the gap is closed (to within a microsecond)
      exactly when n ticks at the slew rate cover it: not sooner and not later. */
  lemma {:induction false} SlewConverges(s: ClockState, n: nat)
    ensures Gap(Slews(s, n)) <= TICK <==> Gap(s) <= n as real * SLEW_RATE + TICK
    ensures Gap(Slews(s, n)) <= TICK || Gap(Slews(s, n)) == Gap(s) - n as real * SLEW_RATE
  {
    if n > 0 {
      SlewConverges(s, n - 1);
      SlewMovesTowards(Slews(s, n - 1));
      assert n as real * SLEW_RATE == (n - 1) as real * SLEW_RATE + SLEW_RATE;
    }
  }

  /** The least number of ticks whose total reaches x. */
  function TicksFor(x: real): (n: nat)
    requires x >= 0.0
    ensures x <= n as real * SLEW_RATE
    ensures n > 0 ==> (n - 1) as real * SLEW_RATE < x
  {
    var n := -((-(x / SLEW_RATE)).Floor);
    assert x / SLEW_RATE * SLEW_RATE == x;
    assert n as real >= x / SLEW_RATE;
    n
  }

  /** ceil(gap / SLEW_RATE) ticks are enough, and the gap stays closed. */
  lemma ConvergesInTime(s: ClockState, n: nat)
    requires n >= TicksFor(Gap(s))
    ensures Gap(Slews(s, n)) <= TICK
  {
    var enough := TicksFor(Gap(s));
    assert n as real * SLEW_RATE >= enough as real * SLEW_RATE;
    SlewConverges(s, n);
  }

  /** After any run, 60 000 ticks (the skew threshold at the slew rate) without a
      synchronization close the gap. */
  lemma AlwaysConverges(events: seq<Event>, n: nat)
    requires n >= 60000
    ensures Gap(Slews(After(events), n)) <= TICK
  {
    GapBounded(events);
    SlewConverges(After(events), n);
  }

  // ---------------------------------------------------------------- reported times

  /** The readings of a run: what the system clock plus the offset showed at each
      report, and what was reported. */
  datatype Reading = Reading(shown: real, reported: real)

  function StepReadings(s: ClockState, e: Event): seq<Reading> {
    match e
    case Synced(offset, raw) =>
      if AcceptsOffset(s, offset) then [Reading(raw + s.drift, Report(s, raw))] else []
    case Slewed => []
    case Asked(raw) => [Reading(raw + s.drift, Report(s, raw))]
  }

  function Readings(events: seq<Event>): seq<Reading> {
    if events == [] then []
    else
      var init := events[..|events| - 1];
      Readings(init) + StepReadings(After(init), events[|events| - 1])
  }

  /** The largest reading shown so far, or zero. */
  function Largest(readings: seq<Reading>): (m: real)
    ensures m >= 0.0
  {
    if readings == [] then 0.0
    else RMax(Largest(readings[..|readings| - 1]), readings[|readings| - 1].shown)
  }

  ghost predicate ReadingsOk(readings: seq<Reading>, last: real) {
    && (forall i, j :: 0 <= i < j < |readings| ==> readings[i].reported < readings[j].reported)
    && (forall i :: 0 <= i < |readings| ==> 0.0 < readings[i].reported <= last && readings[i].shown <= readings[i].reported)
    && (readings == [] ==> last == 0.0)
    && last <= Largest(readings) + |readings| as real * TICK
  }

  lemma ReadingSnoc(readings: seq<Reading>, s: ClockState, raw: real)
    requires ReadingsOk(readings, s.lastReturned) && s.lastReturned >= 0.0
    ensures ReadingsOk(readings + [Reading(raw + s.drift, Report(s, raw))], Report(s, raw))
    ensures Report(s, raw) > s.lastReturned
  {
    var r := Reading(raw + s.drift, Report(s, raw));
    var longer := readings + [r];
    assert longer[..|readings|] == readings;
    assert |longer| as real * TICK == |readings| as real * TICK + TICK;
  }

  lemma ReadingStep(readings: seq<Reading>, s: ClockState, e: Event)
    requires ReadingsOk(readings, s.lastReturned) && s.lastReturned >= 0.0
    ensures ReadingsOk(readings + StepReadings(s, e), Step(s, e).lastReturned)
    ensures Step(s, e).lastReturned >= s.lastReturned
  {
    var added := StepReadings(s, e);
    if added == [] {
      assert readings + added == readings;
      assert Step(s, e).lastReturned == s.lastReturned;
    } else {
      assert added == [Reading(e.raw + s.drift, Report(s, e.raw))];
      assert Step(s, e).lastReturned == Report(s, e.raw);
      ReadingSnoc(readings, s, e.raw);
    }
  }

  lemma {:induction false} ReadingsRun(events: seq<Event>)
    ensures After(events).lastReturned >= 0.0 && ReadingsOk(Readings(events), After(events).lastReturned)
  {
    if events != [] {
      var init := events[..|events| - 1];
      ReadingsRun(init);
      ReadingStep(Readings(init), After(init), events[|events| - 1]);
    }
  }

  /** Reported times strictly increase, never fall below what the offset clock shows, and
      after n reports exceed the largest reading shown (or zero) by at most n
      microseconds. */
  lemma ReportedTimes(events: seq<Event>, j: nat)
    requires j < |Readings(events)|
    ensures var r := Readings(events);
            && (forall i :: 0 <= i < j ==> r[i].reported < r[j].reported)
            && r[j].shown <= r[j].reported
            && r[j].reported <= Largest(r[..j + 1]) + (j + 1) as real * TICK
  {
    ReadingsRun(events);
    ReadingsPrefix(events, j + 1);
  }

  /** Every prefix of the readings is itself bounded. */
  lemma {:induction false} ReadingsPrefix(events: seq<Event>, k: nat)
    requires 0 < k <= |Readings(events)|
    ensures Readings(events)[k - 1].reported <= Largest(Readings(events)[..k]) + k as real * TICK
  {
    var r := Readings(events);
    if k == |r| {
      ReadingsRun(events);
      assert r[..k] == r;
    } else {
      var init := events[..|events| - 1];
      var rest := StepReadings(After(init), events[|events| - 1]);
      assert |rest| <= 1 && r == Readings(init) + rest;
      ReadingsPrefix(init, k);
      assert r[..k] == Readings(init)[..k];
    }
  }

  /** A report is exactly what the offset clock shows, whenever that is more than zero and
      more than every earlier report; otherwise it is the previous report, or zero, plus
      one microsecond. */
  lemma ReportsExactly(events: seq<Event>, j: nat)
    requires j < |Readings(events)|
    ensures var r := Readings(events);
            var latest := if j > 0 then r[j - 1].reported else 0.0;
            var ahead := r[j].shown > 0.0 && forall i :: 0 <= i < j ==> r[j].shown > r[i].reported;
            r[j].reported == if ahead then r[j].shown else latest + 0.000001
  {
    ReadingsRun(events);
    ReportFollows(events, j);
  }

  /** What the clock last returned is the last report, or zero. */
  lemma {:induction false} LastReported(events: seq<Event>)
    ensures var r := Readings(events);
            After(events).lastReturned == if r == [] then 0.0 else r[|r| - 1].reported
  {
    if events != [] {
      var init := events[..|events| - 1];
      LastReported(init);
      SlewMovesTowards(After(init));
    }
  }

  lemma {:induction false} ReportFollows(events: seq<Event>, j: nat)
    requires j < |Readings(events)|
    ensures var r := Readings(events);
            var latest := if j > 0 then r[j - 1].reported else 0.0;
            r[j].reported == if r[j].shown > latest then r[j].shown else latest + 0.000001
  {
    var init := events[..|events| - 1];
    var rest := StepReadings(After(init), events[|events| - 1]);
    assert Readings(events) == Readings(init) + rest && |rest| <= 1;
    if j < |Readings(init)| {
      ReportFollows(init, j);
    } else {
      LastReported(init);
    }
  }

  // -------------------------------------------------------------------- the target

  /** An offset is within the threshold of what the clock uses at the moment. */
  ghost predicate Near(offset: real, drift: real) {
    -60.0 <= offset - drift <= 60.0
  }

  /** The target is the offset of the latest synchronization that was near the offset in
      use at its time; before the first such, target and offset are zero. */
  lemma {:induction false} TargetIsLatest(events: seq<Event>) returns (j: int)
    ensures -1 <= j < |events|
    ensures j == -1 ==> After(events).target == 0.0 && After(events).drift == 0.0
    ensures j >= 0 ==> events[j].Synced? && Near(events[j].offset, After(events[..j]).drift)
                       && After(events).target == events[j].offset
    ensures forall k :: j < k < |events| && events[k].Synced? ==> !Near(events[k].offset, After(events[..k]).drift)
  {
    j := -1;
    if events != [] {
      var last, init := |events| - 1, events[..|events| - 1];
      assert events[..last] == init;
      if events[last].Synced? && Near(events[last].offset, After(init).drift) {
        j := last;
      } else {
        j := TargetIsLatest(init);
        SlewMovesTowards(After(init));
        assert forall k :: 0 <= k < last ==> init[..k] == events[..k] && init[k] == events[k];
      }
    }
  }

  lemma {:induction false} SlewsKeepTarget(s: ClockState, n: nat)
    ensures Slews(s, n).target == s.target
  {
    if n > 0 {
      SlewsKeepTarget(s, n - 1);
    }
  }

  /** After any run, a synchronization with a near offset brings the offset in use to
      within a microsecond of it in 60 000 passes; one with another offset leaves the
      clock as it was. */
  lemma SyncTakesEffect(events: seq<Event>, offset: real, raw: real, n: nat)
    requires n >= 60000
    ensures var before, s := After(events), After(events + [Synced(offset, raw)]);
            && (Near(offset, before.drift) ==> -0.000001 <= Slews(s, n).drift - offset <= 0.000001)
            && (!Near(offset, before.drift) ==> s == before)
  {
    var longer := events + [Synced(offset, raw)];
    assert longer[..|longer| - 1] == events;
    AlwaysConverges(longer, n);
    SlewsKeepTarget(After(longer), n);
  }
}
