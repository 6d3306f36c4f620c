/**
  The mock data generator of the card view. The wall clock and the random
  source are parameters. The generator reads `Date.now()` afresh for every
  record, so `nows` holds one clock reading per record; `draws` holds, per
  record, the three values `Math.random()` returned for it. A record's date is
  the UTC day number that `toISOString().split('T')[0]` would print as a
  calendar date.
 */
module MockSeries {
  import opened Records

  /** `24 * 60 * 60 * 1000` milliseconds. */
  const MsPerDay: int := 24 * 60 * 60 * 1000

  /** The window the view starts with, and the windows its selector offers. */
  const DefaultDays: nat := 30
  const DayOptions: seq<nat> := [7, 30, 90]

  /** The three random draws used for one record. */
  datatype Draw = Draw(emissions: real, savings: real, aqi: real)

  /** `Math.random()` returns values in `[0, 1)`. */
  predicate ValidDraw(d: Draw)
  {
    0.0 <= d.emissions < 1.0 && 0.0 <= d.savings < 1.0 && 0.0 <= d.aqi < 1.0
  }

  /** `Math.round`: the nearest integer, halves rounded up. */
  function JsRound(x: real): (n: int)
    ensures n as real - 0.5 <= x < n as real + 0.5
  {
    (x + 0.5).Floor
  }

  /** The UTC day a millisecond timestamp falls on, counted from 1970-01-01. */
  function UtcDay(ms: int): (day: int)
    ensures day * MsPerDay <= ms < (day + 1) * MsPerDay
  {
    ms / MsPerDay
  }

  /** A timestamp lies on exactly one UTC day. */
  lemma UtcDayUnique(ms: int, day: int)
    requires day * MsPerDay <= ms < (day + 1) * MsPerDay
    ensures UtcDay(ms) == day
  {
  }

  /** Going back `k` whole days from a timestamp lands `k` days earlier. */
  lemma UtcDayShift(ms: int, k: int)
    ensures UtcDay(ms - k * MsPerDay) == UtcDay(ms) - k
  {
    var d := UtcDay(ms);
    assert (d - k) * MsPerDay == d * MsPerDay - k * MsPerDay;
    assert (d - k + 1) * MsPerDay == (d + 1) * MsPerDay - k * MsPerDay;
    UtcDayUnique(ms - k * MsPerDay, d - k);
  }

  /** A later timestamp never falls on an earlier day. */
  lemma UtcDayMonotone(a: int, b: int)
    requires a <= b
    ensures UtcDay(a) <= UtcDay(b)
  {
  }

  /**
    Record `i` of a `days`-long series, built from the clock reading and the
    draws taken for it: dated `days - i - 1` days before the reading, with
    each field in its fixed range when the draws are genuine.
   */
  function MockRecord(days: nat, i: nat, nowMs: int, d: Draw): (r: DailyRecord<int>)
    ensures r.date == UtcDay(nowMs) - (days - i - 1)
    ensures ValidDraw(d) ==>
              && 50 <= r.carbonEmissions <= 150
              && 100 <= r.energySavings <= 300
              && 50 <= r.airQualityIndex <= 200
  {
    UtcDayShift(nowMs, days - i - 1);
    DailyRecord(
      UtcDay(nowMs - (days - i - 1) * MsPerDay),
      JsRound(d.emissions * 100.0 + 50.0),
      JsRound(d.savings * 200.0 + 100.0),
      JsRound(d.aqi * 150.0 + 50.0))
  }

  /**
    `generateMockData(days)`: one record per index; record `i` is dated
    `days - i - 1` days before the clock reading taken for it, so the last
    record carries the day of the last reading.
   */
  function GenerateMockData(days: nat, nows: seq<int>, draws: seq<Draw>): (r: seq<DailyRecord<int>>)
    requires |nows| == days && |draws| == days
    ensures |r| == days
    ensures forall i :: 0 <= i < days ==> r[i].date == UtcDay(nows[i]) - (days - i - 1)
    ensures days > 0 ==> r[days - 1].date == UtcDay(nows[days - 1])
  {
    seq(days, i requires 0 <= i < days => MockRecord(days, i, nows[i], draws[i]))
  }

  /** Clock readings that never go backwards. */
  predicate NonDecreasing(nows: seq<int>)
  {
    forall i, j :: 0 <= i <= j < |nows| ==> nows[i] <= nows[j]
  }

  /** Clock readings that all fall on one UTC day. */
  predicate OnOneDay(nows: seq<int>)
  {
    forall i, j :: 0 <= i < |nows| && 0 <= j < |nows| ==> UtcDay(nows[i]) == UtcDay(nows[j])
  }

  /** With a clock that does not run backwards, the generated dates strictly increase. */
  lemma GeneratedDatesIncrease(days: nat, nows: seq<int>, draws: seq<Draw>)
    requires |nows| == days && |draws| == days
    requires NonDecreasing(nows)
    ensures var r := GenerateMockData(days, nows, draws);
      forall i, j :: 0 <= i < j < days ==> r[i].date < r[j].date
  {
    forall i, j | 0 <= i < j < days
      ensures UtcDay(nows[i]) <= UtcDay(nows[j])
    {
      UtcDayMonotone(nows[i], nows[j]);
    }
  }

  /**
    When every clock reading falls on the same UTC day, the generated dates
    are consecutive days: each is one day after the one before, the first is
    `days - 1` days ago and the last is today.
   */
  lemma GeneratedDatesContiguous(days: nat, nows: seq<int>, draws: seq<Draw>)
    requires |nows| == days && |draws| == days
    requires OnOneDay(nows)
    ensures var r := GenerateMockData(days, nows, draws);
      && (forall i :: 0 < i < days ==> r[i].date == r[i - 1].date + 1)
      && (forall i, j :: 0 <= i < j < days ==> r[i].date < r[j].date)
      && (days > 0 ==> r[days - 1].date == UtcDay(nows[0]))
      && (days > 0 ==> r[0].date == UtcDay(nows[0]) - days + 1)
  {
  }

  /**
    As written, a series generated across UTC midnight skips a day: with two
    records and readings one millisecond apart on either side of midnight,
    the dates are day -1 and day 1.
   */
  lemma MidnightSkipsADay()
    ensures var r := GenerateMockData(2, [MsPerDay - 1, MsPerDay], [Draw(0.0, 0.0, 0.0), Draw(0.0, 0.0, 0.0)]);
      r[0].date == -1 && r[1].date == 1 && r[1].date != r[0].date + 1
  {
    var r := GenerateMockData(2, [MsPerDay - 1, MsPerDay], [Draw(0.0, 0.0, 0.0), Draw(0.0, 0.0, 0.0)]);
    assert UtcDay(MsPerDay - 1) == 0 && UtcDay(MsPerDay) == 1;
  }

  /**
    The generator as evidently intended: one clock reading serves the whole
    series, so its dates are consecutive days ending on the day of that reading.
   */
  function GenerateMockDataOneReading(days: nat, nowMs: int, draws: seq<Draw>): (r: seq<DailyRecord<int>>)
    requires |draws| == days
    ensures |r| == days
    ensures forall i :: 0 < i < days ==> r[i].date == r[i - 1].date + 1
    ensures days > 0 ==> r[days - 1].date == UtcDay(nowMs)
  {
    GenerateMockData(days, seq(days, _ => nowMs), draws)
  }

  /** With genuine draws every field lies in its fixed range, whatever the clock reads. */
  lemma GeneratedFieldsInRange(days: nat, nows: seq<int>, draws: seq<Draw>)
    requires |nows| == days && |draws| == days
    requires forall i :: 0 <= i < days ==> ValidDraw(draws[i])
    ensures var r := GenerateMockData(days, nows, draws);
      forall i :: 0 <= i < days ==>
        && 50 <= r[i].carbonEmissions <= 150
        && 100 <= r[i].energySavings <= 300
        && 50 <= r[i].airQualityIndex <= 200
  {
  }

  /**
    The selector starts at 30 days and offers 7, 30 and 90; every window it
    offers holds at least a week.
   */
  lemma SelectableWindows()
    ensures DefaultDays in DayOptions
    ensures forall d :: d in DayOptions ==> d >= 7
  {
  }
}
