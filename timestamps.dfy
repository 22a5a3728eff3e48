/** Time helpers of the reminder scheduler (today_at, et_to_utc, _gen_time_list).
    An instant is an integer number of seconds since the Unix epoch on the UTC
    reference clock; days are exactly 86400 seconds long (no leap seconds). */
module Timestamps {

  datatype Option<T> = None | Some(value: T)

  const SecondsPerMinute: int := 60
  const SecondsPerHour: int := 3600
  const SecondsPerDay: int := 86400

  /** Eastern time is taken to be a fixed 4 hours behind UTC. */
  const EtOffsetHours: int := 4

  /** Gap between consecutive generated reminder instants, in seconds. */
  const TimeListSpacing: int := 5

  /** The fields that `datetime.datetime` accepts for a time of day. */
  predicate ValidClock(hour: int, minutes: int, seconds: int) {
    0 <= hour < 24 && 0 <= minutes < 60 && 0 <= seconds < 60
  }

  /** Midnight (00:00:00) of the UTC day that contains `t`. */
  function MidnightOf(t: int): (d: int)
    ensures d <= t < d + SecondsPerDay
    ensures d % SecondsPerDay == 0
  {
    t - t % SecondsPerDay
  }

  /** Hour, minute and second of the UTC wall clock at instant `t`. */
  function ClockOf(t: int): (hms: (int, int, int))
    ensures ValidClock(hms.0, hms.1, hms.2)
  {
    var sinceMidnight := t % SecondsPerDay;
    (sinceMidnight / SecondsPerHour, sinceMidnight % SecondsPerHour / SecondsPerMinute, sinceMidnight % SecondsPerMinute)
  }

  /** `today_at(hour, minutes, seconds)`: the instant of that wall-clock time on
      the UTC day of the clock reading `now`; `datetime` rejects fields out of
      range with a ValueError, modelled as None. */
  function TodayAt(now: int, hour: int, minutes: int, seconds: int): (r: Option<int>)
    ensures r.Some? <==> ValidClock(hour, minutes, seconds)
    ensures r.Some? ==> MidnightOf(now) <= r.value < MidnightOf(now) + SecondsPerDay
  {
    if ValidClock(hour, minutes, seconds) then
      Some(MidnightOf(now) + hour * SecondsPerHour + minutes * SecondsPerMinute + seconds)
    else
      None
  }

  /** Splitting a time of day into fields and putting it back is the identity. */
  lemma ClockFieldsRoundTrip(hour: int, minutes: int, seconds: int)
    requires ValidClock(hour, minutes, seconds)
    ensures var sinceMidnight := hour * SecondsPerHour + minutes * SecondsPerMinute + seconds;
      0 <= sinceMidnight < SecondsPerDay &&
      sinceMidnight / SecondsPerHour == hour &&
      sinceMidnight % SecondsPerHour / SecondsPerMinute == minutes &&
      sinceMidnight % SecondsPerMinute == seconds
  {
    var belowHour := minutes * SecondsPerMinute + seconds;
    var sinceMidnight := hour * SecondsPerHour + belowHour;
    assert sinceMidnight / SecondsPerHour == hour && sinceMidnight % SecondsPerHour == belowHour;
    assert sinceMidnight % SecondsPerMinute == seconds by {
      assert sinceMidnight == (hour * 60 + minutes) * SecondsPerMinute + seconds;
    }
  }

  /** The instant `today_at` returns lies on the day of `now` and reads, on the
      wall clock, exactly the hour, minute and second it was given. */
  lemma TodayAtFields(now: int, hour: int, minutes: int, seconds: int)
    requires ValidClock(hour, minutes, seconds)
    ensures TodayAt(now, hour, minutes, seconds).Some?
    ensures MidnightOf(TodayAt(now, hour, minutes, seconds).value) == MidnightOf(now)
    ensures ClockOf(TodayAt(now, hour, minutes, seconds).value) == (hour, minutes, seconds)
  {
    ClockFieldsRoundTrip(hour, minutes, seconds);
    var sinceMidnight := hour * SecondsPerHour + minutes * SecondsPerMinute + seconds;
    assert MidnightOf(now) == (now / SecondsPerDay) * SecondsPerDay;
    assert (MidnightOf(now) + sinceMidnight) % SecondsPerDay == sinceMidnight;
  }

  /** Conversely every instant is `today_at` of its own wall-clock fields. */
  lemma TodayAtOfClock(t: int)
    ensures TodayAt(t, ClockOf(t).0, ClockOf(t).1, ClockOf(t).2) == Some(t)
  {
    var sinceMidnight := t % SecondsPerDay;
    assert sinceMidnight == ClockOf(t).0 * SecondsPerHour + sinceMidnight % SecondsPerHour;
    assert sinceMidnight % SecondsPerHour == ClockOf(t).1 * SecondsPerMinute + ClockOf(t).2;
  }

  /** `et_to_utc`: an Eastern wall-clock instant on the UTC reference clock. */
  function EtToUtc(et: int): (utc: int)
  {
    et + EtOffsetHours * SecondsPerHour
  }

  /** The conversion is a shift by exactly 14400 seconds: it keeps the order
      of instants and the distance between them, and is injective. */
  lemma EtToUtcShift(a: int, b: int)
    ensures EtToUtc(a) - a == 14400
    ensures EtToUtc(b) - EtToUtc(a) == b - a
    ensures a < b <==> EtToUtc(a) < EtToUtc(b)
    ensures EtToUtc(a) == EtToUtc(b) <==> a == b
  {
  }

  /** Readings of the wall clock taken one after another never go backwards. */
  ghost predicate NonDecreasing(clock: nat -> int) {
    forall i: nat, j: nat :: i <= j ==> clock(i) <= clock(j)
  }

  /** What `_gen_time_list(count)` promises: one instant per loop turn, the
      `i`-th being the `i`-th clock reading plus 5·(i+1) seconds. */
  ghost predicate IsTimeList(times: seq<int>, count: int, clock: nat -> int) {
    |times| == (if count < 0 then 0 else count) &&
    forall i :: 0 <= i < |times| ==> times[i] == clock(i) + TimeListSpacing * (i + 1)
  }

  /** `_gen_time_list(count)`; `clock(i)` is what `utcnow()` returns on the
      `i`-th turn of the loop. A negative count gives an empty range. */
  method GenTimeList(count: int, clock: nat -> int) returns (times: seq<int>)
    ensures IsTimeList(times, count, clock)
  {
    times := [];
    var i := 0;
    while i < count
      invariant 0 <= i <= (if count < 0 then 0 else count)
      invariant |times| == i
      invariant forall k :: 0 <= k < i ==> times[k] == clock(k) + TimeListSpacing * (k + 1)
    {
      times := times + [clock(i) + TimeListSpacing * (i + 1)];
      i := i + 1;
    }
  }

  /** With a clock that does not run backwards, the generated instants are
      strictly increasing and each lies after the reading it was made from. */
  lemma TimeListIncreasing(times: seq<int>, count: int, clock: nat -> int)
    requires IsTimeList(times, count, clock)
    requires NonDecreasing(clock)
    ensures forall i, j :: 0 <= i < j < |times| ==> times[i] < times[j]
    ensures forall i :: 0 <= i < |times| ==> times[i] > clock(i)
  {
  }
}
