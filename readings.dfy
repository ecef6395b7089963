/**
 * The rows of the merged meter table and the arithmetic every aggregate is
 * built from: sums, minima and maxima of kWh columns, and the kWh column of
 * the rows that a grouping key selects.
 */
module Readings {
  import opened Wrappers

  /** Whole minutes since 1970-01-01 00:00, the naive clock of the meter exports. */
  type Minutes = int

  /** One row of the merged table; `None` stands for a NaT timestamp or a NaN/missing kWh cell. */
  datatype Row = Row(timestamp: Option<Minutes>, kwh: Option<real>, building: string)

  /** The row survives `dropna(subset=["timestamp", "kwh"])`. */
  predicate Present(r: Row)
  {
    r.timestamp.Some? && r.kwh.Some?
  }

  predicate AllPresent(rows: seq<Row>)
  {
    forall i :: 0 <= i < |rows| ==> Present(rows[i])
  }

  function Ts(r: Row): Minutes
    requires Present(r)
  {
    r.timestamp.value
  }

  function Kwh(r: Row): real
    requires Present(r)
  {
    r.kwh.value
  }

  /** The row filter that keeps every row, for whole-table totals. */
  const AnyRow: Row -> bool := r => true

  // ---------------------------------------------------------------------------
  // Sums, minima and maxima of a kWh column

  function Sum(xs: seq<real>): real
  {
    if xs == [] then 0.0 else xs[0] + Sum(xs[1..])
  }

  function Min(xs: seq<real>): (m: real)
    requires xs != []
    ensures m in xs
    ensures forall i :: 0 <= i < |xs| ==> m <= xs[i]
  {
    if |xs| == 1 then xs[0]
    else
      var rest := Min(xs[1..]);
      if xs[0] <= rest then xs[0] else rest
  }

  function Max(xs: seq<real>): (m: real)
    requires xs != []
    ensures m in xs
    ensures forall i :: 0 <= i < |xs| ==> xs[i] <= m
  {
    if |xs| == 1 then xs[0]
    else
      var rest := Max(xs[1..]);
      if xs[0] >= rest then xs[0] else rest
  }

  /** The arithmetic mean pandas reports for a non-empty group. */
  function Mean(xs: seq<real>): real
    requires xs != []
  {
    Sum(xs) / (|xs| as real)
  }

  lemma {:induction false} SumAppend(xs: seq<real>, ys: seq<real>)
    ensures Sum(xs + ys) == Sum(xs) + Sum(ys)
  {
    if xs == [] {
      assert xs + ys == ys;
    } else {
      assert (xs + ys)[1..] == xs[1..] + ys;
      SumAppend(xs[1..], ys);
    }
  }

  /** Summing does not depend on the order of the values. */
  lemma {:induction false} SumPermutation(xs: seq<real>, ys: seq<real>)
    requires multiset(xs) == multiset(ys)
    ensures Sum(xs) == Sum(ys)
    decreases |xs|
  {
    if xs == [] {
      assert |ys| == |multiset(ys)| == 0;
    } else {
      var x := xs[0];
      assert x in multiset(ys);
      var i :| 0 <= i < |ys| && ys[i] == x;
      var front, back := ys[..i], ys[i + 1..];
      assert ys == front + ([x] + back);
      assert ([x] + back)[1..] == back;
      SumAppend(front, [x] + back);
      SumAppend(front, back);
      assert Sum(ys) == x + Sum(front + back);
      assert xs == [x] + xs[1..];
      assert multiset(ys) == multiset(front) + multiset{x} + multiset(back);
      assert multiset(front + back) == multiset(ys) - multiset{x};
      assert multiset(xs[1..]) == multiset(xs) - multiset{x};
      SumPermutation(xs[1..], front + back);
    }
  }

  lemma {:induction false} SumBounds(xs: seq<real>, lo: real, hi: real)
    requires forall i :: 0 <= i < |xs| ==> lo <= xs[i] <= hi
    ensures (|xs| as real) * lo <= Sum(xs) <= (|xs| as real) * hi
  {
    if xs != [] {
      SumBounds(xs[1..], lo, hi);
    }
  }

  /** pandas' `min <= mean <= max` for every non-empty group. */
  lemma {:induction false} MeanBetweenMinAndMax(xs: seq<real>)
    requires xs != []
    ensures Min(xs) <= Mean(xs) <= Max(xs)
  {
    MeanBounds(xs, Min(xs), Max(xs));
  }

  /** A mean lies within any bounds that hold for every value. */
  lemma {:induction false} MeanBounds(xs: seq<real>, lo: real, hi: real)
    requires xs != []
    requires forall i :: 0 <= i < |xs| ==> lo <= xs[i] <= hi
    ensures lo <= Mean(xs) <= hi
  {
    var s, n := Sum(xs), |xs| as real;
    SumBounds(xs, lo, hi);
    QuotientBetween(s, n, lo, hi);
  }

  lemma {:induction false} QuotientBetween(s: real, n: real, lo: real, hi: real)
    requires n > 0.0 && n * lo <= s <= n * hi
    ensures lo <= s / n <= hi
  {
    var q := s / n;
    assert q * n == s;
    assert (q - lo) * n >= 0.0;
    assert (hi - q) * n >= 0.0;
  }

  /** Min and Max depend only on which values occur. */
  lemma {:induction false} MinMaxSameValues(xs: seq<real>, ys: seq<real>)
    requires xs != [] && ys != []
    requires forall x :: x in xs <==> x in ys
    ensures Min(xs) == Min(ys) && Max(xs) == Max(ys)
  {
  }

  // ---------------------------------------------------------------------------
  // Selecting the kWh column of the rows a key picks out

  /**
   * The kWh values, in row order, of the rows `keep` selects (pandas' boolean
   * mask followed by the "kwh" column). Rows without a reading are skipped, as
   * pandas' reductions skip NaN; on a cleaned table there are none.
   */
  function KwhWhere(rows: seq<Row>, keep: Row -> bool): (xs: seq<real>)
    ensures |xs| <= |rows|
  {
    if rows == [] then []
    else (if Present(rows[0]) && keep(rows[0]) then [Kwh(rows[0])] else []) + KwhWhere(rows[1..], keep)
  }

  lemma {:induction false} KwhWhereAppend(xs: seq<Row>, ys: seq<Row>, keep: Row -> bool)
    ensures KwhWhere(xs + ys, keep) == KwhWhere(xs, keep) + KwhWhere(ys, keep)
  {
    if xs == [] {
      assert xs + ys == ys;
    } else {
      var head := if Present(xs[0]) && keep(xs[0]) then [Kwh(xs[0])] else [];
      assert (xs + ys)[0] == xs[0];
      assert (xs + ys)[1..] == xs[1..] + ys;
      assert KwhWhere(xs + ys, keep) == head + KwhWhere(xs[1..] + ys, keep);
      KwhWhereAppend(xs[1..], ys, keep);
      assert head + (KwhWhere(xs[1..], keep) + KwhWhere(ys, keep))
          == (head + KwhWhere(xs[1..], keep)) + KwhWhere(ys, keep);
    }
  }

  /** A row's own contribution: its kWh when `keep` selects it, nothing otherwise. */
  lemma {:induction false} KwhWhereSingle(r: Row, keep: Row -> bool)
    ensures KwhWhere([r], keep) == if Present(r) && keep(r) then [Kwh(r)] else []
  {
    assert [r][1..] == [];
  }

  /** The first row's contribution to the sum of a selection, and the rest's. */
  lemma {:induction false} SumKwhWhereFirst(rows: seq<Row>, keep: Row -> bool)
    requires rows != []
    ensures Sum(KwhWhere(rows, keep))
         == (if Present(rows[0]) && keep(rows[0]) then Kwh(rows[0]) else 0.0) + Sum(KwhWhere(rows[1..], keep))
  {
    var head := if Present(rows[0]) && keep(rows[0]) then [Kwh(rows[0])] else [];
    SumAppend(head, KwhWhere(rows[1..], keep));
  }

  lemma {:induction false} PermutationPresent(xs: seq<Row>, ys: seq<Row>)
    requires AllPresent(xs) && multiset(xs) == multiset(ys)
    ensures AllPresent(ys)
  {
    forall i | 0 <= i < |ys|
      ensures Present(ys[i])
    {
      assert ys[i] in multiset(xs);
    }
  }

  /** Taking row `i` out of the table takes exactly its own contribution out of the selection. */
  lemma {:induction false} KwhWhereRemove(ys: seq<Row>, i: nat, keep: Row -> bool)
    requires i < |ys|
    ensures multiset(KwhWhere(ys, keep))
         == multiset(KwhWhere([ys[i]], keep)) + multiset(KwhWhere(ys[..i] + ys[i + 1..], keep))
  {
    var front, mid, back := ys[..i], [ys[i]], ys[i + 1..];
    assert ys[i..] == mid + back;
    assert ys == front + (mid + back);
    KwhWhereAppend(mid, back, keep);
    KwhWhereAppend(front, mid + back, keep);
    KwhWhereAppend(front, back, keep);
    var f, m, b := KwhWhere(front, keep), KwhWhere(mid, keep), KwhWhere(back, keep);
    assert KwhWhere(ys, keep) == f + (m + b);
    assert multiset(f + (m + b)) == multiset(m) + multiset(f + b);
  }

  /** Reordering the rows reorders, and only reorders, the selected kWh values. */
  lemma {:induction false} KwhWherePermutation(xs: seq<Row>, ys: seq<Row>, keep: Row -> bool)
    requires multiset(xs) == multiset(ys)
    ensures multiset(KwhWhere(xs, keep)) == multiset(KwhWhere(ys, keep))
    decreases |xs|
  {
    if xs == [] {
      assert |ys| == |multiset(ys)| == 0;
    } else {
      var x := xs[0];
      assert x in multiset(ys);
      var i :| 0 <= i < |ys| && ys[i] == x;
      var rest := ys[..i] + ys[i + 1..];
      assert ys == ys[..i] + [x] + ys[i + 1..];
      assert multiset(rest) == multiset(ys) - multiset{x};
      assert xs == [x] + xs[1..];
      assert multiset(xs[1..]) == multiset(xs) - multiset{x};
      KwhWhereRemove(ys, i, keep);
      KwhWhereRemove(xs, 0, keep);
      assert xs[..0] + xs[1..] == xs[1..];
      KwhWherePermutation(xs[1..], rest, keep);
    }
  }
}
