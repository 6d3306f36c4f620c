/**
  The date-range filter of the chart view: the inclusive `[start, end]`
  window held in component state, the two date inputs that each replace one
  bound, and the effect that recomputes the filtered list whenever the window
  or the data changes.
 */
module DateFilter {
  import opened LexOrder
  import opened Records

  type Row = DailyRecord<string>

  /** The `{ start, end }` state object; the empty string means "not chosen". */
  datatype DateRange = DateRange(start: string, end: string)

  /** The state the view starts in: neither bound chosen. */
  const InitialRange := DateRange("", "")

  /**
    The filter's test: `date >= start && date <= end`. Only a window whose
    start is at most its end admits any date.
   */
  predicate InRange(date: string, start: string, end: string)
    ensures InRange(date, start, end) ==> LexLe(start, end)
  {
    if LexLe(start, date) && LexLe(date, end) then
      LexLeTransitive(start, date, end);
      true
    else false
  }

  /** `xs` is obtained from `ys` by deleting elements, keeping the rest in order. */
  predicate IsSubsequence<T(==)>(xs: seq<T>, ys: seq<T>)
    decreases |ys|
  {
    if |xs| == 0 then true
    else if |ys| == 0 then false
    else if xs[0] == ys[0] then IsSubsequence(xs[1..], ys[1..])
    else IsSubsequence(xs, ys[1..])
  }

  lemma {:induction false} SubsequenceReflexive<T>(xs: seq<T>)
    ensures IsSubsequence(xs, xs)
    decreases |xs|
  {
    if |xs| > 0 {
      SubsequenceReflexive(xs[1..]);
    }
  }

  /** A subsequence holds nothing its source does not. */
  lemma {:induction false} SubsequenceMembers<T>(xs: seq<T>, ys: seq<T>, x: T)
    requires IsSubsequence(xs, ys) && x in xs
    ensures x in ys
    decreases |ys|
  {
    if xs[0] == ys[0] {
      if x != xs[0] {
        assert x in xs[1..];
        SubsequenceMembers(xs[1..], ys[1..], x);
      }
    } else {
      SubsequenceMembers(xs, ys[1..], x);
    }
  }

  /**
    `data.filter(item => item.date >= start && item.date <= end)`: every kept
    record lies in the window, and the kept records appear in input order.
   */
  function FilterByDates(data: seq<Row>, start: string, end: string): (r: seq<Row>)
    ensures |r| <= |data|
    ensures forall i :: 0 <= i < |r| ==> InRange(r[i].date, start, end)
    ensures IsSubsequence(r, data)
    decreases |data|
  {
    if |data| == 0 then []
    else if InRange(data[0].date, start, end) then [data[0]] + FilterByDates(data[1..], start, end)
    else FilterByDates(data[1..], start, end)
  }

  /**
    The filter keeps each in-window record as often as the input holds it and
    drops every other record.
   */
  lemma {:induction false} FilterCounts(data: seq<Row>, start: string, end: string)
    ensures forall x :: multiset(FilterByDates(data, start, end))[x] ==
                        if InRange(x.date, start, end) then multiset(data)[x] else 0
    decreases |data|
  {
    if |data| > 0 {
      FilterCounts(data[1..], start, end);
      assert data == [data[0]] + data[1..];
    }
  }

  /** Completeness: no in-window record is lost. */
  lemma FilterComplete(data: seq<Row>, start: string, end: string, x: Row)
    requires x in data && InRange(x.date, start, end)
    ensures x in FilterByDates(data, start, end)
  {
    FilterCounts(data, start, end);
    assert multiset(FilterByDates(data, start, end))[x] > 0;
  }

  /** Filtering a concatenation filters each part. */
  lemma {:induction false} FilterConcat(a: seq<Row>, b: seq<Row>, start: string, end: string)
    ensures FilterByDates(a + b, start, end) == FilterByDates(a, start, end) + FilterByDates(b, start, end)
    decreases |a|
  {
    if |a| > 0 {
      assert (a + b)[1..] == a[1..] + b;
      FilterConcat(a[1..], b, start, end);
    } else {
      assert a + b == b;
    }
  }

  /** A list already inside the window passes the filter unchanged. */
  lemma {:induction false} FilterKeepsInRange(data: seq<Row>, start: string, end: string)
    requires forall i :: 0 <= i < |data| ==> InRange(data[i].date, start, end)
    ensures FilterByDates(data, start, end) == data
    decreases |data|
  {
    if |data| > 0 {
      FilterKeepsInRange(data[1..], start, end);
    }
  }

  /** Filtering twice with the same window is filtering once. */
  lemma FilterIdempotent(data: seq<Row>, start: string, end: string)
    ensures FilterByDates(FilterByDates(data, start, end), start, end) == FilterByDates(data, start, end)
  {
    FilterKeepsInRange(FilterByDates(data, start, end), start, end);
  }

  /** A window whose start comes after its end admits nothing. */
  lemma FilterReversedIsEmpty(data: seq<Row>, start: string, end: string)
    requires LexLt(end, start)
    ensures FilterByDates(data, start, end) == []
  {
  }

  /**
    `dateRange.start && dateRange.end`: a JavaScript string is truthy exactly
    when it has at least one character, so the filter runs only when both
    bounds are non-empty.
   */
  predicate Active(range: DateRange)
    ensures Active(range) <==> |range.start| > 0 && |range.end| > 0
  {
    range.start != "" && range.end != ""
  }

  /**
    The filtering effect: with both bounds chosen the view shows the in-window
    records, otherwise it shows the data as loaded.
   */
  function FilteredData(data: seq<Row>, range: DateRange): (r: seq<Row>)
    ensures !Active(range) ==> r == data
    ensures Active(range) ==> forall i :: 0 <= i < |r| ==> InRange(r[i].date, range.start, range.end)
    ensures IsSubsequence(r, data)
  {
    if Active(range) then FilterByDates(data, range.start, range.end)
    else
      SubsequenceReflexive(data);
      data
  }

  /** With both bounds chosen, the view shows exactly the in-window records of the data. */
  lemma FilteredDataExact(data: seq<Row>, range: DateRange, x: Row)
    requires Active(range)
    ensures x in FilteredData(data, range) <==> x in data && InRange(x.date, range.start, range.end)
  {
    var r := FilteredData(data, range);
    if x in data && InRange(x.date, range.start, range.end) {
      FilterComplete(data, range.start, range.end, x);
    }
    if x in r {
      SubsequenceMembers(r, data, x);
    }
  }

  /** Re-running the effect on its own output changes nothing. */
  lemma FilteredDataIdempotent(data: seq<Row>, range: DateRange)
    ensures FilteredData(FilteredData(data, range), range) == FilteredData(data, range)
  {
    if Active(range) {
      FilterIdempotent(data, range.start, range.end);
    }
  }

  /** With both bounds chosen and start after end, the view is empty. */
  lemma FilteredDataReversedIsEmpty(data: seq<Row>, range: DateRange)
    requires Active(range) && LexLt(range.end, range.start)
    ensures FilteredData(data, range) == []
  {
    FilterReversedIsEmpty(data, range.start, range.end);
  }

  /** At first render no bound is chosen, so the view shows all the data. */
  lemma InitialRangeShowsAll(data: seq<Row>)
    ensures FilteredData(data, InitialRange) == data
  {
  }

  /** The start input: `setDateRange({ ...dateRange, start: value })`. */
  function SetStart(range: DateRange, value: string): (r: DateRange)
    ensures r.start == value && r.end == range.end
  {
    range.(start := value)
  }

  /** The end input: `setDateRange({ ...dateRange, end: value })`. */
  function SetEnd(range: DateRange, value: string): (r: DateRange)
    ensures r.end == value && r.start == range.start
  {
    range.(end := value)
  }

  /** The two inputs are independent: the order they are changed in does not matter. */
  lemma BoundUpdatesCommute(range: DateRange, s: string, e: string)
    ensures SetEnd(SetStart(range, s), e) == SetStart(SetEnd(range, e), s) == DateRange(s, e)
  {
  }

  /** Clearing either input turns the filter off. */
  lemma ClearingABoundShowsAll(data: seq<Row>, range: DateRange)
    ensures FilteredData(data, SetStart(range, "")) == data
    ensures FilteredData(data, SetEnd(range, "")) == data
  {
  }

  /** Of the first, seventh and twelfth of January only the seventh lies from the fifth to the tenth. */
  lemma JanuaryWindowDates()
    ensures !InRange("2025-01-01", "2025-01-05", "2025-01-10")
    ensures InRange("2025-01-07", "2025-01-05", "2025-01-10")
    ensures !InRange("2025-01-12", "2025-01-05", "2025-01-10")
  {
    JanuaryFirstBeforeFifth();
    JanuarySeventhInWindow();
    JanuaryTwelfthAfterTenth();
  }

  lemma JanuaryFirstBeforeFifth()
    ensures LexLt("2025-01-01", "2025-01-05")
  {
    LexLtAtFirstDifference("2025-01-01", "2025-01-05", 9);
  }

  lemma JanuarySeventhInWindow()
    ensures InRange("2025-01-07", "2025-01-05", "2025-01-10")
  {
    LexLtAtFirstDifference("2025-01-05", "2025-01-07", 9);
    LexLtAsymmetric("2025-01-05", "2025-01-07");
    JanuarySeventhBeforeTenth();
  }

  lemma JanuarySeventhBeforeTenth()
    ensures !LexLt("2025-01-10", "2025-01-07")
  {
    LexLtAtFirstDifference("2025-01-07", "2025-01-10", 8);
    LexLtAsymmetric("2025-01-07", "2025-01-10");
  }

  lemma JanuaryTwelfthAfterTenth()
    ensures LexLt("2025-01-10", "2025-01-12")
  {
    LexLtAtFirstDifference("2025-01-10", "2025-01-12", 9);
  }

  /** Five to ten January keeps the one record dated inside that window. */
  lemma ExampleWindow()
    ensures FilterByDates(
      [DailyRecord("2025-01-01", 1, 1, 1), DailyRecord("2025-01-07", 2, 2, 2), DailyRecord("2025-01-12", 3, 3, 3)],
      "2025-01-05", "2025-01-10") == [DailyRecord("2025-01-07", 2, 2, 2)]
  {
    var a := [DailyRecord("2025-01-01", 1, 1, 1), DailyRecord("2025-01-07", 2, 2, 2), DailyRecord("2025-01-12", 3, 3, 3)];
    var s, e := "2025-01-05", "2025-01-10";
    JanuaryWindowDates();
    assert FilterByDates(a, s, e) == FilterByDates(a[1..], s, e);
    assert FilterByDates(a[1..], s, e) == [a[1]] + FilterByDates(a[2..], s, e);
    assert FilterByDates(a[2..], s, e) == FilterByDates(a[3..], s, e);
    assert a[3..] == [];
  }

  /** Start after end, as in ten to five January, shows nothing. */
  lemma ExampleReversedWindow(data: seq<Row>)
    ensures FilteredData(data, DateRange("2025-01-10", "2025-01-05")) == []
  {
    LexLtAtFirstDifference("2025-01-05", "2025-01-10", 8);
    FilteredDataReversedIsEmpty(data, DateRange("2025-01-10", "2025-01-05"));
  }
}
