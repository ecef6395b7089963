/**
 * The three figures of `generate_summary`: the campus total
 * (`df["kwh"].sum()`), the building with the highest total
 * (`summary["total"].idxmax()`) and the peak-load row
 * (`df.loc[df["kwh"].idxmax()]`). Writing and printing the text is not
 * modelled; the figures are.
 */
module Executive {
  import opened Readings
  import opened Aggregation

  /** `df["kwh"].sum()` over the cleaned table: on a table without gaps, what the daily totals add up to. */
  function TotalConsumption(rows: seq<Row>): (total: real)
    ensures AllPresent(rows) ==> total == TotalOfBins(DailyTotals(rows))
  {
    if AllPresent(rows) then
      DailyTotalsConserve(rows);
      Sum(KwhWhere(rows, AnyRow))
    else Sum(KwhWhere(rows, AnyRow))
  }

  /** The campus total does not depend on the order of the rows. */
  lemma {:induction false} TotalOrderIndependent(xs: seq<Row>, ys: seq<Row>)
    requires multiset(xs) == multiset(ys)
    ensures TotalConsumption(xs) == TotalConsumption(ys)
  {
    KwhWherePermutation(xs, ys, AnyRow);
    SumPermutation(KwhWhere(xs, AnyRow), KwhWhere(ys, AnyRow));
  }

  // ---------------------------------------------------------------------------
  // The peak-load row

  /** `df["kwh"].idxmax()`: the position of the first row with the greatest kWh. */
  function PeakIndex(rows: seq<Row>): (p: nat)
    requires rows != [] && AllPresent(rows)
    ensures p < |rows|
    ensures forall i :: 0 <= i < |rows| ==> Kwh(rows[i]) <= Kwh(rows[p])
    ensures forall i :: 0 <= i < p ==> Kwh(rows[i]) < Kwh(rows[p])
  {
    if |rows| == 1 then 0
    else
      assert forall i :: 1 <= i < |rows| ==> rows[1..][i - 1] == rows[i];
      var q := PeakIndex(rows[1..]) + 1;
      if Kwh(rows[0]) >= Kwh(rows[q]) then 0 else q
  }

  // ---------------------------------------------------------------------------
  // The highest-consuming building

  /**
   * Code-point lexicographic order on building names: the order of the
   * summary's index, since `groupby` sorts its keys.
   */
  predicate NameLe(a: string, b: string)
  {
    |a| == 0 || (|b| > 0 && (a[0] < b[0] || (a[0] == b[0] && NameLe(a[1..], b[1..]))))
  }

  lemma {:induction false} NameLeTotal(a: string, b: string)
    ensures NameLe(a, b) || NameLe(b, a)
  {
    if |a| > 0 && |b| > 0 && a[0] == b[0] {
      NameLeTotal(a[1..], b[1..]);
    }
  }

  lemma {:induction false} NameLeAntisymmetric(a: string, b: string)
    requires NameLe(a, b) && NameLe(b, a)
    ensures a == b
  {
    if |a| > 0 {
      NameLeAntisymmetric(a[1..], b[1..]);
      assert a == [a[0]] + a[1..] && b == [b[0]] + b[1..];
    }
  }

  lemma {:induction false} NameLeTransitive(a: string, b: string, c: string)
    requires NameLe(a, b) && NameLe(b, c)
    ensures NameLe(a, c)
  {
    if |a| > 0 && a[0] == b[0] && b[0] == c[0] {
      NameLeTransitive(a[1..], b[1..], c[1..]);
    }
  }

  /**
   * `b` is what `idxmax` over the summary's totals returns: a building with
   * the greatest total, and of those the first in index order.
   */
  predicate IsHighest(summary: map<string, Stats>, b: string)
  {
    && b in summary
    && (forall c :: c in summary ==> summary[c].total <= summary[b].total)
    && (forall c :: c in summary && summary[c].total == summary[b].total ==> NameLe(b, c))
  }

  /** `idxmax` has exactly one answer on a non-empty summary. */
  lemma {:induction false} HighestUnique(summary: map<string, Stats>, b1: string, b2: string)
    requires IsHighest(summary, b1) && IsHighest(summary, b2)
    ensures b1 == b2
  {
    NameLeAntisymmetric(b1, b2);
  }

  /** `df_building_summary["total"].idxmax()`. */
  ghost function HighestBuilding(summary: map<string, Stats>): (b: string)
    requires summary != map[]
    ensures IsHighest(summary, b)
    decreases |summary.Keys|
  {
    var c :| c in summary;
    var rest := summary - {c};
    assert rest.Keys == summary.Keys - {c};
    assert summary.Keys == rest.Keys + {c};
    if rest == map[] then
      HighestOfOne(summary, c);
      c
    else
      var b := HighestBuilding(rest);
      HighestStep(summary, c, b);
      if Beats(summary, c, b) then c else b
  }

  /** `c` comes before `b` in `idxmax`'s eyes: a greater total, or an equal total and an earlier name. */
  predicate Beats(summary: map<string, Stats>, c: string, b: string)
    requires c in summary && b in summary
  {
    summary[c].total > summary[b].total || (summary[c].total == summary[b].total && NameLe(c, b))
  }

  lemma {:induction false} NameLeReflexive(a: string)
    ensures NameLe(a, a)
  {
    if |a| > 0 {
      NameLeReflexive(a[1..]);
    }
  }

  lemma {:induction false} HighestOfOne(summary: map<string, Stats>, c: string)
    requires summary.Keys == {c}
    ensures IsHighest(summary, c)
  {
    NameLeReflexive(c);
  }

  /** Adding building `c` back to a summary whose highest is `b`: the highest is whichever of the two comes first. */
  lemma {:induction false} HighestStep(summary: map<string, Stats>, c: string, b: string)
    requires c in summary && IsHighest(summary - {c}, b)
    ensures IsHighest(summary, if Beats(summary, c, b) then c else b)
  {
    var rest := summary - {c};
    assert forall d :: d in summary && d != c ==> d in rest && rest[d] == summary[d];
    if Beats(summary, c, b) {
      NameLeReflexive(c);
      forall d | d in summary && summary[d].total == summary[c].total
        ensures NameLe(c, d)
      {
        if d != c {
          NameLeTransitive(c, b, d);
        }
      }
    } else {
      NameLeTotal(b, c);
    }
  }

  // ---------------------------------------------------------------------------
  // The summary

  /** The figures the executive summary reports. */
  datatype ExecutiveSummary = ExecutiveSummary(
    totalConsumption: real,
    highestBuilding: string,
    peakTime: Minutes,
    peakKwh: real)

  /** `generate_summary(df, building_wise_summary(df))` on a non-empty cleaned table. */
  ghost function GenerateSummary(rows: seq<Row>): (s: ExecutiveSummary)
    requires rows != [] && AllPresent(rows)
    ensures s.totalConsumption == TotalOfBins(DailyTotals(rows))
    ensures IsHighest(BuildingWiseSummary(rows), s.highestBuilding)
    ensures forall i :: 0 <= i < |rows| ==> Kwh(rows[i]) <= s.peakKwh
    ensures exists i :: 0 <= i < |rows| && s.peakTime == Ts(rows[i]) && s.peakKwh == Kwh(rows[i])
  {
    var summary := BuildingWiseSummary(rows);
    SummaryEntries(rows, rows[0].building);
    var highest := HighestBuilding(summary);
    SummaryEntries(rows, highest);
    var p := PeakIndex(rows);
    ExecutiveSummary(TotalConsumption(rows), highest, Ts(rows[p]), Kwh(rows[p]))
  }

  /** The peak load does not depend on the order of the rows. */
  lemma {:induction false} PeakKwhOrderIndependent(xs: seq<Row>, ys: seq<Row>)
    requires xs != [] && ys != [] && AllPresent(xs) && AllPresent(ys)
    requires multiset(xs) == multiset(ys)
    ensures Kwh(xs[PeakIndex(xs)]) == Kwh(ys[PeakIndex(ys)])
  {
    var p, q := PeakIndex(xs), PeakIndex(ys);
    assert xs[p] in multiset(ys);
    assert ys[q] in multiset(xs);
  }

  /**
   * Reordering the cleaned rows changes neither the campus total, nor the
   * highest building, nor the peak load; only which of several rows with the
   * peak load is reported can change.
   */
  lemma {:induction false} GenerateSummaryOrderIndependent(xs: seq<Row>, ys: seq<Row>)
    requires xs != [] && AllPresent(xs) && multiset(xs) == multiset(ys)
    ensures ys != [] && AllPresent(ys)
    ensures GenerateSummary(xs).totalConsumption == GenerateSummary(ys).totalConsumption
    ensures GenerateSummary(xs).highestBuilding == GenerateSummary(ys).highestBuilding
    ensures GenerateSummary(xs).peakKwh == GenerateSummary(ys).peakKwh
  {
    assert |ys| == |multiset(ys)| == |multiset(xs)| == |xs|;
    PermutationPresent(xs, ys);
    SummaryOrderIndependent(xs, ys);
    TotalOrderIndependent(xs, ys);
    PeakKwhOrderIndependent(xs, ys);
  }
}
