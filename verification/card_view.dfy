/**
  The card view put together: what its cards and its bar chart show for a
  series produced by its own generator.
 */
module CardView {
  import opened Records
  import opened MockSeries
  import opened Summary

  /** With genuine draws, the totals grow with the window and the average stays in the AQI range. */
  lemma GeneratedStatsInRange(days: nat, nows: seq<int>, draws: seq<Draw>)
    requires |nows| == days && |draws| == days
    requires forall i :: 0 <= i < days ==> ValidDraw(draws[i])
    ensures var s := Aggregate(GenerateMockData(days, nows, draws));
      && 50 * days <= s.totalEmissions <= 150 * days
      && 100 * days <= s.totalSavings <= 300 * days
      && (days > 0 ==> s.averageAQI.Rounded? && 50 <= s.averageAQI.value <= 200)
      && (days == 0 ==> s.averageAQI.NaN?)
  {
    var data := GenerateMockData(days, nows, draws);
    GeneratedFieldsInRange(days, nows, draws);
    SumBounds(data, Emissions, 50, 150);
    SumBounds(data, Savings, 100, 300);
    if days > 0 {
      AverageWithinBounds(data, 50, 200);
    }
  }

  /**
    When every clock reading falls on one UTC day, the bar chart of a
    generated series shows the last `min(7, days)` days, one per day, ending
    on that day.
   */
  lemma GeneratedBarChartIsLastWeek(days: nat, nows: seq<int>, draws: seq<Draw>)
    requires |nows| == days && |draws| == days
    requires OnOneDay(nows)
    ensures var bars := BarChartData(GenerateMockData(days, nows, draws));
      && |bars| == (if days < 7 then days else 7)
      && forall k :: 0 <= k < |bars| ==> bars[k].date == UtcDay(nows[0]) - (|bars| - 1 - k)
  {
    var data := GenerateMockData(days, nows, draws);
    var bars := BarChartData(data);
    var m := days - |bars|;
    assert bars == data[m..];
    forall k | 0 <= k < |bars|
      ensures bars[k].date == UtcDay(nows[0]) - (|bars| - 1 - k)
    {
      assert bars[k] == data[m + k];
    }
  }

  /** With one clock reading for the series, the bar chart always shows the last week ending today. */
  lemma OneReadingBarChartIsLastWeek(days: nat, nowMs: int, draws: seq<Draw>)
    requires |draws| == days
    ensures var bars := BarChartData(GenerateMockDataOneReading(days, nowMs, draws));
      && |bars| == (if days < 7 then days else 7)
      && forall k :: 0 <= k < |bars| ==> bars[k].date == UtcDay(nowMs) - (|bars| - 1 - k)
  {
    var nows := seq(days, _ => nowMs);
    GeneratedBarChartIsLastWeek(days, nows, draws);
  }

  /** Every window the selector offers fills the bar chart with seven bars. */
  lemma SelectableWindowsFillBarChart(days: nat, nows: seq<int>, draws: seq<Draw>)
    requires days in DayOptions
    requires |nows| == days && |draws| == days
    ensures |BarChartData(GenerateMockData(days, nows, draws))| == 7
  {
    SelectableWindows();
  }
}
