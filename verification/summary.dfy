/**
  The summary cards and the bar chart of the card view: the two totals and
  the rounded mean air quality of `aggregateData`, and the last week of data
  that `data.slice(-7)` hands to the bar chart.
 */
module Summary {
  import opened Records

  /**
    The sum of one field over a list of records: 0 for no records, and never
    negative when no value is.
   */
  function Sum<D>(data: seq<DailyRecord<D>>, f: Field): (total: int)
    ensures |data| == 0 ==> total == 0
    ensures (forall i :: 0 <= i < |data| ==> 0 <= Value(data[i], f)) ==> 0 <= total
    decreases |data|
  {
    if |data| == 0 then 0 else Value(data[0], f) + Sum(data[1..], f)
  }

  lemma {:induction false} SumConcat<D>(a: seq<DailyRecord<D>>, b: seq<DailyRecord<D>>, f: Field)
    ensures Sum(a + b, f) == Sum(a, f) + Sum(b, f)
    decreases |a|
  {
    if |a| == 0 {
      assert a + b == b;
    } else {
      assert (a + b)[1..] == a[1..] + b;
      SumConcat(a[1..], b, f);
    }
  }

  /**
    `data.reduce((sum, day) => sum + day.field, 0)`: the running total taken
    left to right ends at the sum of the field.
   */
  method Reduce<D>(data: seq<DailyRecord<D>>, f: Field) returns (total: int)
    ensures total == Sum(data, f)
  {
    total := 0;
    var i := 0;
    while i < |data|
      invariant 0 <= i <= |data|
      invariant total == Sum(data[..i], f)
    {
      SumConcat(data[..i], [data[i]], f);
      assert data[..i + 1] == data[..i] + [data[i]];
      total := total + Value(data[i], f);
      i := i + 1;
    }
    assert data[..i] == data;
  }

  /** Taking out the record at index `j` takes its value out of the total. */
  lemma SumRemove<D>(b: seq<DailyRecord<D>>, j: int, f: Field)
    requires 0 <= j < |b|
    ensures Sum(b, f) == Value(b[j], f) + Sum(b[..j] + b[j + 1..], f)
  {
    assert b == b[..j] + [b[j]] + b[j + 1..];
    SumConcat(b[..j] + [b[j]], b[j + 1..], f);
    SumConcat(b[..j], [b[j]], f);
    SumConcat(b[..j], b[j + 1..], f);
  }

  lemma MultisetRemove<T>(b: seq<T>, j: int)
    requires 0 <= j < |b|
    ensures multiset(b[..j] + b[j + 1..]) == multiset(b) - multiset{b[j]}
  {
    assert b == b[..j] + [b[j]] + b[j + 1..];
  }

  /** A total does not depend on the order of the records. */
  lemma {:induction false} SumPermutation<D>(a: seq<DailyRecord<D>>, b: seq<DailyRecord<D>>, f: Field)
    requires multiset(a) == multiset(b)
    ensures Sum(a, f) == Sum(b, f)
    decreases |a|
  {
    if |a| == 0 {
      assert |b| == |multiset(b)| == 0;
    } else {
      var j := IndexOf(b, a[0]);
      var rest := b[..j] + b[j + 1..];
      RemoveMatching(a, b, j);
      SumPermutation(a[1..], rest, f);
      SumRemove(b, j, f);
    }
  }

  /** Removing the same element from two permutations of each other leaves permutations. */
  lemma RemoveMatching<T>(a: seq<T>, b: seq<T>, j: int)
    requires multiset(a) == multiset(b) && |a| > 0
    requires 0 <= j < |b| && b[j] == a[0]
    ensures multiset(a[1..]) == multiset(b[..j] + b[j + 1..])
  {
    MultisetRemove(b, j);
    MultisetRemove(a, 0);
    assert a[..0] + a[1..] == a[1..];
  }

  lemma IndexOf<T>(b: seq<T>, x: T) returns (j: int)
    requires x in multiset(b)
    ensures 0 <= j < |b| && b[j] == x
  {
    j :| 0 <= j < |b| && b[j] == x;
  }

  /** If every value of a field lies in `[lo, hi]`, the total lies between `n * lo` and `n * hi`. */
  lemma {:induction false} SumBounds<D>(data: seq<DailyRecord<D>>, f: Field, lo: int, hi: int)
    requires forall i :: 0 <= i < |data| ==> lo <= Value(data[i], f) <= hi
    ensures |data| * lo <= Sum(data, f) <= |data| * hi
    decreases |data|
  {
    if |data| > 0 {
      SumBounds(data[1..], f, lo, hi);
      assert lo <= Value(data[0], f) <= hi;
      MulStep(|data|, lo);
      MulStep(|data|, hi);
    }
  }

  lemma MulStep(n: int, x: int)
    ensures n * x == (n - 1) * x + x
  {
  }

  /**
    `Math.round(s / n)` for a positive count: the integer nearest the mean,
    a mean exactly halfway between two integers going to the upper one.
   */
  function RoundedMean(s: int, n: int): (r: int)
    requires n > 0
    ensures 2 * n * r - n <= 2 * s < 2 * n * r + n
  {
    (2 * s + n) / (2 * n)
  }

  /** The rounded mean of values in `[lo, hi]` stays in `[lo, hi]`. */
  lemma RoundedMeanBounds(s: int, n: int, lo: int, hi: int)
    requires n > 0 && n * lo <= s <= n * hi
    ensures lo <= RoundedMean(s, n) <= hi
  {
    var r := RoundedMean(s, n);
    assert n * (2 * r) < n * (2 * hi + 2);
    MulCancel(n, 2 * r, 2 * hi + 2);
    assert n * (2 * lo - 2) < n * (2 * r);
    MulCancel(n, 2 * lo - 2, 2 * r);
  }

  lemma MulCancel(n: int, a: int, b: int)
    requires n > 0 && n * a < n * b
    ensures a < b
  {
  }

  /** JavaScript's average card: a number, or `NaN` when there is no data to divide. */
  datatype Average = Rounded(value: int) | NaN

  datatype Stats = Stats(totalEmissions: int, totalSavings: int, averageAQI: Average)

  /**
    `aggregateData()`: the two totals, and the mean air quality rounded to an
    integer. On an empty list the totals are 0 and the division `0 / 0` makes
    the average `NaN`.
   */
  function Aggregate<D>(data: seq<DailyRecord<D>>): (s: Stats)
    ensures |data| == 0 ==> s == Stats(0, 0, NaN)
    ensures |data| > 0 ==> s.averageAQI.Rounded?
    ensures |data| > 0 ==>
              2 * |data| * s.averageAQI.value - |data|
              <= 2 * Sum(data, AirQuality)
              < 2 * |data| * s.averageAQI.value + |data|
  {
    Stats(
      Sum(data, Emissions),
      Sum(data, Savings),
      if |data| == 0 then NaN else Rounded(RoundedMean(Sum(data, AirQuality), |data|)))
  }

  /** The card view's computation, by three left-to-right reductions, agrees with `Aggregate`. */
  method AggregateData<D>(data: seq<DailyRecord<D>>) returns (stats: Stats)
    ensures stats == Aggregate(data)
  {
    var emissions := Reduce(data, Emissions);
    var savings := Reduce(data, Savings);
    var aqi := Reduce(data, AirQuality);
    var average := if |data| == 0 then NaN else Rounded(RoundedMean(aqi, |data|));
    stats := Stats(emissions, savings, average);
  }

  /** Reordering the records changes none of the cards. */
  lemma AggregatePermutation<D>(a: seq<DailyRecord<D>>, b: seq<DailyRecord<D>>)
    requires multiset(a) == multiset(b)
    ensures Aggregate(a) == Aggregate(b)
  {
    SumPermutation(a, b, Emissions);
    SumPermutation(a, b, Savings);
    SumPermutation(a, b, AirQuality);
    assert |a| == |multiset(a)| == |multiset(b)| == |b|;
  }

  /** If every air-quality value lies in `[lo, hi]`, so does the average card. */
  lemma AverageWithinBounds<D>(data: seq<DailyRecord<D>>, lo: int, hi: int)
    requires |data| > 0
    requires forall i :: 0 <= i < |data| ==> lo <= data[i].airQualityIndex <= hi
    ensures Aggregate(data).averageAQI.Rounded?
    ensures lo <= Aggregate(data).averageAQI.value <= hi
  {
    SumBounds(data, AirQuality, lo, hi);
    RoundedMeanBounds(Sum(data, AirQuality), |data|, lo, hi);
  }

  /** Two days: 100 + 50 kg, 200 + 100 kWh, and the mean of 50 and 150 is 100. */
  lemma AggregateExample()
    ensures Aggregate([DailyRecord("2025-01-01", 100, 200, 50), DailyRecord("2025-01-02", 50, 100, 150)])
            == Stats(150, 300, Rounded(100))
  {
    var data := [DailyRecord("2025-01-01", 100, 200, 50), DailyRecord("2025-01-02", 50, 100, 150)];
    assert data[1..][1..] == [];
  }

  /**
    `s.slice(start)` with one argument: a negative start counts from the end
    and is clamped at the front, a start past the end gives the empty list.
   */
  function Slice<T>(s: seq<T>, start: int): (r: seq<T>)
    ensures start < 0 ==> |r| == if -start < |s| then -start else |s|
    ensures 0 <= start ==> |r| == if start < |s| then |s| - start else 0
    ensures r == s[|s| - |r|..]
  {
    var from :=
      if start < 0 then (if |s| + start < 0 then 0 else |s| + start)
      else (if start > |s| then |s| else start);
    s[from..]
  }

  /** `data.slice(-7)`: the bar chart shows the last seven records, or all of them if fewer. */
  function BarChartData<D>(data: seq<DailyRecord<D>>): (r: seq<DailyRecord<D>>)
    ensures |r| == if |data| < 7 then |data| else 7
    ensures r == data[|data| - |r|..]
  {
    Slice(data, -7)
  }
}
