/**
 * The three aggregate views of the cleaned table: `calculate_daily_totals`
 * (`resample("D")` and sum), `calculate_weekly_aggregates` (`resample("W")`
 * and mean) and `building_wise_summary` (groupby building, mean/min/max/sum).
 *
 * pandas' `resample` yields one bin for every day (week) from the first
 * reading's to the last reading's, so the views below do too: an empty day
 * sums to 0.0 and an empty week has no mean (`None`, pandas' NaN).
 */
module Aggregation {
  import opened Wrappers
  import opened Readings

  // A day is 1440 minutes and a week 7 days. 1970-01-01 was a Thursday, so
  // day 3 (1970-01-04) is the first Sunday: Sundays are the days d with d % 7 == 3.
  // The numbers are written out below so that the solver sees linear arithmetic.

  /** The calendar day of a timestamp: midnight starts a day (floor division, also before the epoch). */
  function Day(t: Minutes): int
  {
    t / 1440
  }

  predicate IsSunday(d: int)
  {
    d % 7 == 3
  }

  /** The `"W"` (= `"W-SUN"`) week of a day, numbered so that week `w` ends on Sunday `SundayOf(w)`. */
  function Week(d: int): int
  {
    (d + 3) / 7
  }

  function SundayOf(w: int): int
  {
    7 * w + 3
  }

  /** The label of the weekly bin of a day: the Sunday that ends its week. */
  function WeekEnding(d: int): int
  {
    SundayOf(Week(d))
  }

  /** A day starts at midnight and lasts 1440 minutes. */
  lemma {:induction false} DayBoundaries(t: Minutes)
    ensures Day(t) * 1440 <= t < (Day(t) + 1) * 1440
  {
  }

  lemma {:induction false} SundayOfIsSunday(w: int)
    ensures IsSunday(SundayOf(w))
    ensures Week(SundayOf(w)) == w
  {
  }

  /** The week of a day ends on the first Sunday on or after that day. */
  lemma {:induction false} WeekEndingIsNextSunday(d: int)
    ensures IsSunday(WeekEnding(d))
    ensures d <= WeekEnding(d) < d + 7
    ensures forall s :: IsSunday(s) && d <= s ==> WeekEnding(d) <= s
  {
    SundayOfIsSunday(Week(d));
    forall s | IsSunday(s) && d <= s
      ensures WeekEnding(d) <= s
    {
      assert s == SundayOf(s / 7);
    }
  }

  /** Later days fall in the same week or a later one. */
  lemma {:induction false} WeekMonotone(d1: int, d2: int)
    requires d1 <= d2
    ensures Week(d1) <= Week(d2)
  {
  }

  // ---------------------------------------------------------------------------
  // The span of days the readings cover

  /** The earliest day among the readings. */
  function FirstDay(rows: seq<Row>): int
    requires rows != [] && AllPresent(rows)
  {
    if |rows| == 1 then Day(Ts(rows[0]))
    else
      assert forall i :: 1 <= i < |rows| ==> rows[1..][i - 1] == rows[i];
      var rest := FirstDay(rows[1..]);
      if Day(Ts(rows[0])) <= rest then Day(Ts(rows[0])) else rest
  }

  /** The latest day among the readings. */
  function LastDay(rows: seq<Row>): int
    requires rows != [] && AllPresent(rows)
  {
    if |rows| == 1 then Day(Ts(rows[0]))
    else
      assert forall i :: 1 <= i < |rows| ==> rows[1..][i - 1] == rows[i];
      var rest := LastDay(rows[1..]);
      if Day(Ts(rows[0])) >= rest then Day(Ts(rows[0])) else rest
  }

  /** The first and last days bracket every reading's day. */
  lemma {:induction false} DaySpanBounds(rows: seq<Row>)
    requires rows != [] && AllPresent(rows)
    ensures forall i :: 0 <= i < |rows| ==> FirstDay(rows) <= Day(Ts(rows[i])) <= LastDay(rows)
  {
    if |rows| > 1 {
      assert forall i :: 1 <= i < |rows| ==> rows[1..][i - 1] == rows[i];
      DaySpanBounds(rows[1..]);
    }
  }

  /** The first and last days are days of actual readings. */
  lemma {:induction false} DaySpanAttained(rows: seq<Row>) returns (i: nat, j: nat)
    requires rows != [] && AllPresent(rows)
    ensures i < |rows| && FirstDay(rows) == Day(Ts(rows[i]))
    ensures j < |rows| && LastDay(rows) == Day(Ts(rows[j]))
  {
    if |rows| == 1 {
      i, j := 0, 0;
    } else {
      assert forall k :: 1 <= k < |rows| ==> rows[1..][k - 1] == rows[k];
      var i', j' := DaySpanAttained(rows[1..]);
      i := if Day(Ts(rows[0])) <= FirstDay(rows[1..]) then 0 else i' + 1;
      j := if Day(Ts(rows[0])) >= LastDay(rows[1..]) then 0 else j' + 1;
    }
  }

  /** Reading `i`'s day lies in the span. */
  lemma {:induction false} DayWithinSpan(rows: seq<Row>, i: nat)
    requires AllPresent(rows) && i < |rows|
    ensures FirstDay(rows) <= Day(Ts(rows[i])) <= LastDay(rows)
  {
    DaySpanBounds(rows);
  }

  // ---------------------------------------------------------------------------
  // Daily totals

  datatype DayTotal = DayTotal(day: int, kwh: real)

  /** The readings taken on day `d`. */
  function OnDay(d: int): Row -> bool
  {
    (r: Row) => Present(r) && Day(Ts(r)) == d
  }

  /** The bins of days `first`, ..., `first + n - 1`, each with the sum of its readings. */
  function DayBins(rows: seq<Row>, first: int, n: nat): seq<DayTotal>
  {
    seq(n, k => DayTotal(first + k, Sum(KwhWhere(rows, OnDay(first + k)))))
  }

  /** `calculate_daily_totals`: `resample("D")["kwh"].sum()`. */
  function DailyTotals(rows: seq<Row>): (bins: seq<DayTotal>)
    requires AllPresent(rows)
    ensures bins == [] <==> rows == []
    ensures rows != [] ==> |bins| == LastDay(rows) - FirstDay(rows) + 1 && bins[0].day == FirstDay(rows)
  {
    if rows == [] then []
    else
      DayWithinSpan(rows, 0);
      DayBins(rows, FirstDay(rows), LastDay(rows) - FirstDay(rows) + 1)
  }

  function TotalOfBins(bins: seq<DayTotal>): real
  {
    if bins == [] then 0.0 else bins[0].kwh + TotalOfBins(bins[1..])
  }

  /** The daily bins are consecutive days in ascending order, from the first reading's day to the last's. */
  lemma {:induction false} DailyTotalsAscending(rows: seq<Row>)
    requires AllPresent(rows)
    ensures var bins := DailyTotals(rows);
      && (bins == [] <==> rows == [])
      && (rows != [] ==> bins[0].day == FirstDay(rows) && bins[|bins| - 1].day == LastDay(rows))
      && forall k :: 0 <= k < |bins| - 1 ==> bins[k + 1].day == bins[k].day + 1
  {
  }

  /** The daily bins run from the first reading's day to the last reading's. */
  lemma {:induction false} DailySpan(rows: seq<Row>)
    requires AllPresent(rows) && rows != []
    ensures FirstDay(rows) <= LastDay(rows)
    ensures DailyTotals(rows) == DayBins(rows, FirstDay(rows), LastDay(rows) - FirstDay(rows) + 1)
  {
    DayWithinSpan(rows, 0);
  }

  /** Day `d` of the span `first ..< first + n` has its bin at position `d - first`. */
  lemma {:induction false} DayBinOfDay(rows: seq<Row>, first: int, n: nat, d: int)
    requires first <= d < first + n
    ensures var bins := DayBins(rows, first, n);
      && |bins| == n && bins[d - first].day == d
      && bins[d - first].kwh == Sum(KwhWhere(rows, OnDay(d)))
  {
  }

  /** No two daily bins are for the same day. */
  lemma {:induction false} DailyDaysDistinct(rows: seq<Row>)
    requires AllPresent(rows)
    ensures var bins := DailyTotals(rows);
      forall k1, k2 :: 0 <= k1 < |bins| && 0 <= k2 < |bins| && bins[k1].day == bins[k2].day ==> k1 == k2
  {
  }

  /**
   * Every reading falls into the daily bin of its calendar day and is counted
   * in that bin's total; no other bin is for that day (DailyDaysDistinct).
   */
  lemma {:induction false} DailyBinOfReading(rows: seq<Row>, i: nat)
    requires AllPresent(rows) && i < |rows|
    ensures var bins, d := DailyTotals(rows), Day(Ts(rows[i]));
      var k := d - FirstDay(rows);
      && 0 <= k < |bins| && bins[k].day == d
      && bins[k].kwh == Sum(KwhWhere(rows, OnDay(d)))
  {
    DayWithinSpan(rows, i);
    var first, n := FirstDay(rows), LastDay(rows) - FirstDay(rows) + 1;
    DayBinOfDay(rows, first, n, Day(Ts(rows[i])));
    DailySpan(rows);
  }

  /** Summing the bins of `first ..< first + n` adds a row's kWh once if its day is in that span, else not at all. */
  lemma {:induction false} DayBinsSplitFirstRow(rows: seq<Row>, first: int, n: nat)
    requires rows != [] && Present(rows[0])
    ensures TotalOfBins(DayBins(rows, first, n))
         == (if first <= Day(Ts(rows[0])) < first + n then Kwh(rows[0]) else 0.0)
            + TotalOfBins(DayBins(rows[1..], first, n))
    decreases n
  {
    if n > 0 {
      DayBinsTail(rows, first, n);
      DayBinsTail(rows[1..], first, n);
      SumKwhWhereFirst(rows, OnDay(first));
      DayBinsSplitFirstRow(rows, first + 1, n - 1);
    }
  }

  /** The bins over a span containing every reading's day add up to the table's kWh. */
  lemma {:induction false} DayBinsConserve(rows: seq<Row>, first: int, n: nat)
    requires AllPresent(rows)
    requires forall i :: 0 <= i < |rows| ==> first <= Day(Ts(rows[i])) < first + n
    ensures TotalOfBins(DayBins(rows, first, n)) == Sum(KwhWhere(rows, AnyRow))
    decreases |rows|
  {
    if rows == [] {
      DayBinsEmpty(first, n);
    } else {
      DayBinsSplitFirstRow(rows, first, n);
      assert forall i :: 0 <= i < |rows| - 1 ==> rows[1..][i] == rows[i + 1];
      DayBinsConserve(rows[1..], first, n);
      SumKwhWhereFirst(rows, AnyRow);
    }
  }

  lemma {:induction false} DayBinsTail(rows: seq<Row>, first: int, n: nat)
    requires n > 0
    ensures DayBins(rows, first, n)[1..] == DayBins(rows, first + 1, n - 1)
  {
    assert forall k :: 0 <= k < n - 1 ==> DayBins(rows, first, n)[1..][k] == DayBins(rows, first + 1, n - 1)[k];
  }

  lemma {:induction false} DayBinsEmpty(first: int, n: nat)
    ensures TotalOfBins(DayBins([], first, n)) == 0.0
    decreases n
  {
    if n > 0 {
      DayBinsTail([], first, n);
      assert KwhWhere([], OnDay(first)) == [];
      DayBinsEmpty(first + 1, n - 1);
    }
  }

  /** Conservation: the daily totals add up to the total kWh of the cleaned table. */
  lemma {:induction false} DailyTotalsConserve(rows: seq<Row>)
    requires AllPresent(rows)
    ensures TotalOfBins(DailyTotals(rows)) == Sum(KwhWhere(rows, AnyRow))
  {
    if rows != [] {
      DaySpanBounds(rows);
      DayBinsConserve(rows, FirstDay(rows), LastDay(rows) - FirstDay(rows) + 1);
    }
  }

  // ---------------------------------------------------------------------------
  // Weekly means

  datatype WeekMean = WeekMean(weekEnding: int, mean: Option<real>)

  /** The readings whose week ends on Sunday `s`. */
  function InWeek(s: int): Row -> bool
  {
    (r: Row) => Present(r) && WeekEnding(Day(Ts(r))) == s
  }

  /** pandas' mean of a bin: NaN (`None`) for an empty bin. */
  function BinMean(xs: seq<real>): Option<real>
  {
    if xs == [] then None else Some(Mean(xs))
  }

  /** The bins of weeks `first`, ..., `first + n - 1`, each labelled by its Sunday and with its mean. */
  function WeekBins(rows: seq<Row>, first: int, n: nat): seq<WeekMean>
  {
    seq(n, k => WeekMean(SundayOf(first + k), BinMean(KwhWhere(rows, InWeek(SundayOf(first + k))))))
  }

  /** `calculate_weekly_aggregates`: `resample("W")["kwh"].mean()`. */
  function WeeklyMeans(rows: seq<Row>): (bins: seq<WeekMean>)
    requires AllPresent(rows)
    ensures bins == [] <==> rows == []
    ensures rows != [] ==> |bins| == Week(LastDay(rows)) - Week(FirstDay(rows)) + 1
                           && bins[0].weekEnding == WeekEnding(FirstDay(rows))
  {
    if rows == [] then []
    else
      var first, last := Week(FirstDay(rows)), Week(LastDay(rows));
      DayWithinSpan(rows, 0);
      WeekMonotone(FirstDay(rows), LastDay(rows));
      WeekBins(rows, first, last - first + 1)
  }

  lemma {:induction false} WeekBinAt(rows: seq<Row>, first: int, n: nat, k: nat)
    requires k < n
    ensures |WeekBins(rows, first, n)| == n
    ensures WeekBins(rows, first, n)[k]
         == WeekMean(SundayOf(first + k), BinMean(KwhWhere(rows, InWeek(SundayOf(first + k)))))
  {
  }

  /** The weekly bins run from the first reading's week to the last reading's. */
  lemma {:induction false} WeeklySpan(rows: seq<Row>)
    requires AllPresent(rows) && rows != []
    ensures Week(FirstDay(rows)) <= Week(LastDay(rows))
    ensures WeeklyMeans(rows)
         == WeekBins(rows, Week(FirstDay(rows)), Week(LastDay(rows)) - Week(FirstDay(rows)) + 1)
  {
    DayWithinSpan(rows, 0);
    WeekMonotone(FirstDay(rows), LastDay(rows));
  }

  lemma {:induction false} WeekBinsAscending(rows: seq<Row>, first: int, n: nat)
    ensures var bins := WeekBins(rows, first, n);
      && (forall k :: 0 <= k < |bins| ==> IsSunday(bins[k].weekEnding))
      && forall k :: 0 <= k < |bins| - 1 ==> bins[k + 1].weekEnding == bins[k].weekEnding + 7
  {
    var bins := WeekBins(rows, first, n);
    forall k | 0 <= k < n
      ensures IsSunday(bins[k].weekEnding)
    {
      WeekBinAt(rows, first, n, k);
      SundayOfIsSunday(first + k);
    }
    forall k | 0 <= k < n - 1
      ensures bins[k + 1].weekEnding == bins[k].weekEnding + 7
    {
      WeekBinAt(rows, first, n, k);
      WeekBinAt(rows, first, n, k + 1);
    }
  }

  /** The weekly bins are labelled by consecutive Sundays in ascending order, from the first reading's week to the last's. */
  lemma {:induction false} WeeklyMeansAscending(rows: seq<Row>)
    requires AllPresent(rows)
    ensures var bins := WeeklyMeans(rows);
      && (bins == [] <==> rows == [])
      && (rows != [] ==> bins[0].weekEnding == WeekEnding(FirstDay(rows))
                         && bins[|bins| - 1].weekEnding == WeekEnding(LastDay(rows)))
      && (forall k :: 0 <= k < |bins| ==> IsSunday(bins[k].weekEnding))
      && forall k :: 0 <= k < |bins| - 1 ==> bins[k + 1].weekEnding == bins[k].weekEnding + 7
  {
    if rows != [] {
      WeeklySpan(rows);
      var first, last := Week(FirstDay(rows)), Week(LastDay(rows));
      var n := last - first + 1;
      WeekBinsAscending(rows, first, n);
      WeekBinAt(rows, first, n, 0);
      WeekBinAt(rows, first, n, n - 1);
    }
  }

  /** Week `w` of the span `first ..< first + n` has its bin at position `w - first`. */
  lemma {:induction false} WeekBinOfWeek(rows: seq<Row>, first: int, n: nat, w: int)
    requires first <= w < first + n
    ensures var bins := WeekBins(rows, first, n);
      && |bins| == n && bins[w - first].weekEnding == SundayOf(w)
      && bins[w - first].mean == BinMean(KwhWhere(rows, InWeek(SundayOf(w))))
  {
    WeekBinAt(rows, first, n, w - first);
  }

  /** No two weekly bins carry the same label. */
  lemma {:induction false} WeeklyLabelsDistinct(rows: seq<Row>)
    requires AllPresent(rows)
    ensures var bins := WeeklyMeans(rows);
      forall k1, k2 :: 0 <= k1 < |bins| && 0 <= k2 < |bins| && bins[k1].weekEnding == bins[k2].weekEnding ==> k1 == k2
  {
    if rows != [] {
      WeeklySpan(rows);
      var first, n := Week(FirstDay(rows)), Week(LastDay(rows)) - Week(FirstDay(rows)) + 1;
      forall k1, k2 | 0 <= k1 < n && 0 <= k2 < n && WeekBins(rows, first, n)[k1].weekEnding == WeekBins(rows, first, n)[k2].weekEnding
        ensures k1 == k2
      {
        WeekBinAt(rows, first, n, k1);
        WeekBinAt(rows, first, n, k2);
      }
    }
  }

  /** The first and last readings' weeks bracket every reading's week. */
  lemma {:induction false} WeekWithinSpan(rows: seq<Row>, i: nat)
    requires AllPresent(rows) && i < |rows|
    ensures Week(FirstDay(rows)) <= Week(Day(Ts(rows[i]))) <= Week(LastDay(rows))
  {
    DayWithinSpan(rows, i);
    WeekMonotone(FirstDay(rows), Day(Ts(rows[i])));
    WeekMonotone(Day(Ts(rows[i])), LastDay(rows));
  }

  /**
   * Every reading falls into the weekly bin of the week ending on the Sunday
   * on or after its day, whose mean is the mean of that week's readings; no
   * other bin has that label (WeeklyLabelsDistinct).
   */
  lemma {:induction false} WeeklyBinOfReading(rows: seq<Row>, i: nat)
    requires AllPresent(rows) && i < |rows|
    ensures var bins, d := WeeklyMeans(rows), Day(Ts(rows[i]));
      var k := Week(d) - Week(FirstDay(rows));
      && 0 <= k < |bins| && bins[k].weekEnding == WeekEnding(d)
      && KwhWhere(rows, InWeek(WeekEnding(d))) != []
      && bins[k].mean == Some(Mean(KwhWhere(rows, InWeek(WeekEnding(d)))))
  {
    WeekWithinSpan(rows, i);
    var first, n := Week(FirstDay(rows)), Week(LastDay(rows)) - Week(FirstDay(rows)) + 1;
    WeekBinOfReading(rows, first, n, i);
    WeeklySpan(rows);
  }

  /** Within any span of weeks containing reading `i`'s week, its bin has the week's label and mean. */
  lemma {:induction false} WeekBinOfReading(rows: seq<Row>, first: int, n: nat, i: nat)
    requires AllPresent(rows) && i < |rows|
    requires first <= Week(Day(Ts(rows[i]))) < first + n
    ensures var bins, d := WeekBins(rows, first, n), Day(Ts(rows[i]));
      var k := Week(d) - first;
      && |bins| == n && bins[k].weekEnding == WeekEnding(d)
      && KwhWhere(rows, InWeek(WeekEnding(d))) != []
      && bins[k].mean == Some(Mean(KwhWhere(rows, InWeek(WeekEnding(d)))))
  {
    WeekBinAt(rows, first, n, Week(Day(Ts(rows[i]))) - first);
    ReadingInItsWeek(rows, i);
  }

  /** A reading is among the readings of its own week. */
  lemma {:induction false} ReadingInItsWeek(rows: seq<Row>, i: nat)
    requires AllPresent(rows) && i < |rows|
    ensures KwhWhere(rows, InWeek(WeekEnding(Day(Ts(rows[i]))))) != []
  {
    KwhWhereHas(rows, InWeek(WeekEnding(Day(Ts(rows[i])))), i);
  }

  /** A weekly bin has a mean iff it holds a reading, and then the mean lies between its least and greatest reading. */
  lemma {:induction false} WeeklyMeanWithinReadings(rows: seq<Row>, k: nat)
    requires AllPresent(rows) && k < |WeeklyMeans(rows)|
    ensures var bin := WeeklyMeans(rows)[k];
      var xs := KwhWhere(rows, InWeek(bin.weekEnding));
      && (bin.mean.Some? <==> xs != [])
      && (xs != [] ==> Min(xs) <= bin.mean.value <= Max(xs))
  {
    WeeklySpan(rows);
    var first, last := Week(FirstDay(rows)), Week(LastDay(rows));
    var bins := WeekBins(rows, first, last - first + 1);
    var xs := KwhWhere(rows, InWeek(SundayOf(first + k)));
    WeekBinAt(rows, first, last - first + 1, k);
    if xs != [] {
      MeanBetweenMinAndMax(xs);
    }
  }

  // ---------------------------------------------------------------------------
  // Per-building summary

  /** One row of `building_wise_summary`: mean, min, max and sum (renamed total). */
  datatype Stats = Stats(mean: real, min: real, max: real, total: real)

  function StatsOf(xs: seq<real>): Stats
    requires xs != []
  {
    Stats(Mean(xs), Min(xs), Max(xs), Sum(xs))
  }

  /** The readings of building `b`. */
  function OfBuilding(b: string): Row -> bool
  {
    (r: Row) => r.building == b
  }

  /** The distinct building names of the table, the groupby keys. */
  function Buildings(rows: seq<Row>): set<string>
  {
    set i | 0 <= i < |rows| :: rows[i].building
  }

  /** The kWh column of building `b`'s group, never empty for a groupby key. */
  function Group(rows: seq<Row>, b: string): (xs: seq<real>)
    requires AllPresent(rows) && b in Buildings(rows)
    ensures xs != []
  {
    var i :| 0 <= i < |rows| && rows[i].building == b;
    KwhWhereHas(rows, OfBuilding(b), i);
    KwhWhere(rows, OfBuilding(b))
  }

  /** `building_wise_summary`: groupby building, then mean/min/max/sum of kwh. */
  function BuildingWiseSummary(rows: seq<Row>): (summary: map<string, Stats>)
    requires AllPresent(rows)
    ensures summary.Keys == Buildings(rows)
  {
    map b | b in Buildings(rows) :: StatsOf(Group(rows, b))
  }

  /** One summary entry per distinct building; its total is the sum of that building's readings and min <= mean <= max. */
  lemma {:induction false} SummaryEntries(rows: seq<Row>, b: string)
    requires AllPresent(rows)
    ensures b in BuildingWiseSummary(rows) <==> exists i :: 0 <= i < |rows| && rows[i].building == b
    ensures b in BuildingWiseSummary(rows) ==>
      var s, xs := BuildingWiseSummary(rows)[b], KwhWhere(rows, OfBuilding(b));
      && xs != []
      && s.total == Sum(xs)
      && s.min in xs && s.max in xs
      && s.mean == s.total / (|xs| as real)
      && s.min <= s.mean <= s.max
      && (forall i :: 0 <= i < |rows| && rows[i].building == b ==> s.min <= Kwh(rows[i]) <= s.max)
  {
    if b in BuildingWiseSummary(rows) {
      var xs := Group(rows, b);
      MeanBetweenMinAndMax(xs);
      forall i | 0 <= i < |rows| && rows[i].building == b
        ensures Min(xs) <= Kwh(rows[i]) <= Max(xs)
      {
        KwhWhereHas(rows, OfBuilding(b), i);
      }
    }
  }

  /** The selection holds the kWh of every row it selects. */
  lemma {:induction false} KwhWhereHas(rows: seq<Row>, keep: Row -> bool, i: nat)
    requires i < |rows| && Present(rows[i]) && keep(rows[i])
    ensures Kwh(rows[i]) in KwhWhere(rows, keep)
  {
    if i > 0 {
      KwhWhereHas(rows[1..], keep, i - 1);
    }
  }

  /** The summary does not depend on the order of the rows. */
  lemma {:induction false} SummaryOrderIndependent(xs: seq<Row>, ys: seq<Row>)
    requires AllPresent(xs) && multiset(xs) == multiset(ys)
    ensures AllPresent(ys)
    ensures BuildingWiseSummary(xs) == BuildingWiseSummary(ys)
  {
    PermutationPresent(xs, ys);
    assert Buildings(xs) == Buildings(ys) by {
      forall b ensures b in Buildings(xs) <==> b in Buildings(ys) {
        if b in Buildings(xs) {
          var i :| 0 <= i < |xs| && xs[i].building == b;
          assert xs[i] in multiset(ys);
        }
        if b in Buildings(ys) {
          var i :| 0 <= i < |ys| && ys[i].building == b;
          assert ys[i] in multiset(xs);
        }
      }
    }
    forall b | b in Buildings(xs)
      ensures StatsOf(Group(xs, b)) == StatsOf(Group(ys, b))
    {
      var p, q := Group(xs, b), Group(ys, b);
      KwhWherePermutation(xs, ys, OfBuilding(b));
      SumPermutation(p, q);
      assert |p| == |multiset(p)| == |multiset(q)| == |q|;
      forall x ensures x in p <==> x in q {
        assert x in p <==> x in multiset(p);
        assert x in q <==> x in multiset(q);
      }
      MinMaxSameValues(p, q);
    }
  }
}
