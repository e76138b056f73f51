/**
 * Daily aggregation, `add_daily_totals` (backend/main.py:58-89).  The rows are
 * grouped by calendar day, days in ascending order (pandas `groupby` sorts its
 * keys and keeps each group's rows in table order); each day's rows are
 * emitted and followed at once by one summary row; afterwards every row whose
 * sign cell holds the summary marker is filled grey.
 */
module DailyTotals {
  import opened Wrappers
  import opened Rows

  predicate StrictlyIncreasing(ks: seq<int>)
  {
    forall i, j :: 0 <= i < j < |ks| ==> ks[i] < ks[j]
  }

  /** Some row of `rows` falls on day `d`. */
  predicate HasDay(rows: seq<Row>, d: int)
  {
    exists i :: 0 <= i < |rows| && Day(rows[i]) == d
  }

  /** `d` added to an ascending list of distinct days. */
  function InsertKey(d: int, ks: seq<int>): (r: seq<int>)
    requires StrictlyIncreasing(ks)
    ensures StrictlyIncreasing(r)
    ensures forall x :: x in r <==> x == d || x in ks
  {
    if ks == [] then [d]
    else if d < ks[0] then [d] + ks
    else if d == ks[0] then ks
    else
      var rest := InsertKey(d, ks[1..]);
      assert forall x :: x in rest ==> ks[0] < x by {
        forall x | x in ks[1..] ensures ks[0] < x {
          var j :| 0 <= j < |ks[1..]| && ks[1..][j] == x;
          assert ks[j + 1] == x;
        }
      }
      ConsSmaller(ks[0], rest);
      [ks[0]] + rest
  }

  /** A key smaller than every key of an ascending list may be put in front of it. */
  lemma ConsSmaller(k: int, rest: seq<int>)
    requires StrictlyIncreasing(rest) && forall x :: x in rest ==> k < x
    ensures StrictlyIncreasing([k] + rest)
  {
    var r := [k] + rest;
    forall i, j | 0 <= i < j < |r| ensures r[i] < r[j] {
      assert r[j] == rest[j - 1] && r[j] in rest;
      if 0 < i {
        assert r[i] == rest[i - 1];
      }
    }
  }

  /** The group keys of `groupby` on the date: each day that occurs, once, ascending. */
  function DayKeys(rows: seq<Row>): (ks: seq<int>)
    ensures StrictlyIncreasing(ks)
    ensures forall d :: d in ks <==> HasDay(rows, d)
  {
    if rows == [] then []
    else
      var ks := InsertKey(Day(rows[0]), DayKeys(rows[1..]));
      assert forall d :: HasDay(rows, d) <==> d == Day(rows[0]) || HasDay(rows[1..], d) by {
        forall d | HasDay(rows[1..], d) ensures HasDay(rows, d) {
          var i :| 0 <= i < |rows[1..]| && Day(rows[1..][i]) == d;
          assert Day(rows[i + 1]) == d;
        }
        forall d | HasDay(rows, d) && d != Day(rows[0]) ensures HasDay(rows[1..], d) {
          var i :| 0 <= i < |rows| && Day(rows[i]) == d;
          assert Day(rows[1..][i - 1]) == d;
        }
      }
      ks
  }

  /** One group of `groupby`: the rows of day `d`, in table order. */
  function DayRows(rows: seq<Row>, d: int): (g: seq<Row>)
    ensures forall i :: 0 <= i < |g| ==> Day(g[i]) == d
    ensures g != [] <==> HasDay(rows, d)
  {
    if rows == [] then []
    else
      var g := (if Day(rows[0]) == d then [rows[0]] else []) + DayRows(rows[1..], d);
      assert HasDay(rows[1..], d) ==> HasDay(rows, d) by {
        if HasDay(rows[1..], d) {
          var i :| 0 <= i < |rows[1..]| && Day(rows[1..][i]) == d;
          assert Day(rows[i + 1]) == d;
        }
      }
      assert HasDay(rows, d) && Day(rows[0]) != d ==> HasDay(rows[1..], d) by {
        if HasDay(rows, d) && Day(rows[0]) != d {
          var i :| 0 <= i < |rows| && Day(rows[i]) == d;
          assert Day(rows[1..][i - 1]) == d;
        }
      }
      g
  }

  /** `group[col].sum()`: empty cells are skipped. */
  function SumColumn(g: seq<Row>, c: Column): int
  {
    if g == [] then 0 else SumColumn(g[..|g| - 1], c) + ValueOr0(Amount(g[|g| - 1], c))
  }

  /** `group['Итого'].sum()`. */
  function SumTotals(g: seq<Row>): int
  {
    if g == [] then 0 else SumTotals(g[..|g| - 1]) + ValueOr0(g[|g| - 1].total)
  }

  /**
   * The summary row of one day (backend/main.py:69-73): the timestamp of the
   * day's last row, the marker in the sign column, the column sums; every
   * other column, the tax type among them, is empty.
   */
  function DaySummary(g: seq<Row>): (s: Row)
    requires g != []
    ensures IsDayTotalRow(s) && s.tax == None
    ensures forall c :: Amount(s, c) == Some(SumColumn(g, c))
    ensures s.total == Some(SumTotals(g))
    ensures SortedByStamp(g) ==> forall i :: 0 <= i < |g| ==> g[i].stamp <= s.stamp
  {
    Row(g[|g| - 1].stamp, Some(DayTotalMarker), None,
        Some(SumColumn(g, Cash)), Some(SumColumn(g, Electronic)),
        Some(SumColumn(g, Advance)), Some(SumColumn(g, AdvanceOffset)),
        Some(SumTotals(g)))
  }

  /** The output for the days `ks`: for each day in turn, its rows and then its summary. */
  function Emit(rows: seq<Row>, ks: seq<int>): seq<Row>
    requires forall k :: k in ks ==> HasDay(rows, k)
  {
    if ks == [] then []
    else
      var k := ks[|ks| - 1];
      Emit(rows, ks[..|ks| - 1]) + DayRows(rows, k) + [DaySummary(DayRows(rows, k))]
  }

  /**
   * The table `add_daily_totals` writes (before highlighting): every row of
   * it lies on a day of the input, and it is empty only for an empty input.
   */
  function WithDailyTotals(rows: seq<Row>): (t: seq<Row>)
    ensures forall i :: 0 <= i < |t| ==> HasDay(rows, Day(t[i]))
    ensures t == [] <==> rows == []
  {
    var ks := DayKeys(rows);
    EmitDays(rows, ks);
    EmitLength(rows, ks);
    assert rows != [] ==> HasDay(rows, Day(rows[0]));
    assert rows != [] ==> Day(rows[0]) in ks;
    Emit(rows, ks)
  }

  /** The summary rows of `Emit(rows, ks)`, one per day, in the order they are written. */
  function Summaries(rows: seq<Row>, ks: seq<int>): (s: seq<Row>)
    requires forall k :: k in ks ==> HasDay(rows, k)
    ensures |s| == |ks|
    ensures forall i :: 0 <= i < |s| ==> IsDayTotalRow(s[i])
  {
    if ks == [] then []
    else
      var k := ks[|ks| - 1];
      Summaries(rows, ks[..|ks| - 1]) + [DaySummary(DayRows(rows, k))]
  }

  /** The detail rows of `Emit(rows, ks)`, in the order they are written. */
  function Gathered(rows: seq<Row>, ks: seq<int>): seq<Row>
  {
    if ks == [] then [] else Gathered(rows, ks[..|ks| - 1]) + DayRows(rows, ks[|ks| - 1])
  }

  /** The test of backend/main.py:87: the sign cell holds the summary marker. */
  predicate IsDayTotalRow(r: Row)
  {
    r.sign == Some(DayTotalMarker)
  }

  function MarkerCount(s: seq<Row>): nat
  {
    if s == [] then 0 else MarkerCount(s[..|s| - 1]) + (if IsDayTotalRow(s[|s| - 1]) then 1 else 0)
  }

  /**
   * `add_daily_totals`: the table is the daily-total table of `rows`, and a row
   * is filled exactly when its sign cell holds the summary marker.
   */
  method AddDailyTotals(rows: seq<Row>) returns (table: seq<Row>, fill: seq<bool>)
    ensures table == WithDailyTotals(rows)
    ensures |fill| == |table|
    ensures forall i :: 0 <= i < |table| ==> (fill[i] <==> IsDayTotalRow(table[i]))
  {
    var ks := DayKeys(rows);
    assert forall k :: k in ks ==> HasDay(rows, k);
    table := [];
    for i := 0 to |ks|
      invariant table == Emit(rows, ks[..i])
    {
      EmitStep(rows, ks, i);
      var group := DayRows(rows, ks[i]);
      table := table + group + [DaySummary(group)];
    }
    assert ks[..|ks|] == ks;
    fill := Highlight(table);
  }

  /** The output for one more day: the day's rows and then its summary. */
  lemma EmitStep(rows: seq<Row>, ks: seq<int>, i: nat)
    requires i < |ks| && forall k :: k in ks ==> HasDay(rows, k)
    ensures Emit(rows, ks[..i + 1])
         == Emit(rows, ks[..i]) + DayRows(rows, ks[i]) + [DaySummary(DayRows(rows, ks[i]))]
  {
    assert ks[..i + 1][..i] == ks[..i];
  }

  /** The formatting loop of backend/main.py:86-89: a row is filled exactly when it is marked. */
  method Highlight(table: seq<Row>) returns (fill: seq<bool>)
    ensures |fill| == |table|
    ensures forall i :: 0 <= i < |table| ==> (fill[i] <==> IsDayTotalRow(table[i]))
  {
    fill := [];
    for i := 0 to |table|
      invariant |fill| == i
      invariant forall j :: 0 <= j < i ==> (fill[j] <==> IsDayTotalRow(table[j]))
    {
      fill := fill + [table[i].sign == Some(DayTotalMarker)];
    }
  }

  // ---------------------------------------------------------------- the summary row

  /**
   * A day's summary row lies on that day, carries the marker, the timestamp of
   * the day's last row, and no earlier timestamp than any row of the day when
   * the day's rows are sorted.
   */
  lemma SummaryOfDay(g: seq<Row>, d: int)
    requires g != [] && forall i :: 0 <= i < |g| ==> Day(g[i]) == d
    ensures Day(DaySummary(g)) == d && IsDayTotalRow(DaySummary(g))
    ensures DaySummary(g).stamp == g[|g| - 1].stamp
    ensures SortedByStamp(g) ==> forall i :: 0 <= i < |g| ==> g[i].stamp <= DaySummary(g).stamp
  {
  }

  /**
   * When every row's 'Итого' is the sum of its payment cells (as normalisation
   * leaves it), the summary's 'Итого' is the sum of the summary's four payment
   * sums.
   */
  lemma {:induction false} SummaryTotalBalances(g: seq<Row>)
    requires g != []
    requires forall i :: 0 <= i < |g| ==> g[i].total == Some(RowSum(g[i]))
    ensures DaySummary(g).total == Some(RowSum(DaySummary(g)))
  {
    SumTotalsIsSumOfColumns(g);
  }

  lemma {:induction false} SumTotalsIsSumOfColumns(g: seq<Row>)
    requires forall i :: 0 <= i < |g| ==> g[i].total == Some(RowSum(g[i]))
    ensures SumTotals(g)
         == SumColumn(g, Cash) + SumColumn(g, Electronic) + SumColumn(g, Advance) + SumColumn(g, AdvanceOffset)
  {
    if g != [] {
      SumTotalsIsSumOfColumns(g[..|g| - 1]);
    }
  }

  /**
   * Two rows of one day, paid 100 and -40 in cash: the table is the two rows
   * followed by one summary holding 60, with the second row's timestamp.
   */
  lemma SameDayExample()
    ensures var sale := Row(36000, Some("Приход"), Some("УСН"), Some(100), None, None, None, Some(100));
            var refund := Row(39600, Some(ReturnFlag), Some("УСН"), Some(-40), None, None, None, Some(-40));
            WithDailyTotals([sale, refund])
            == [sale, refund, Row(39600, Some(DayTotalMarker), None, Some(60), Some(0), Some(0), Some(0), Some(60))]
  {
    var sale := Row(36000, Some("Приход"), Some("УСН"), Some(100), None, None, None, Some(100));
    var refund := Row(39600, Some(ReturnFlag), Some("УСН"), Some(-40), None, None, None, Some(-40));
    var rows := [sale, refund];
    assert Day(sale) == 0 && Day(refund) == 0;
    assert rows[1..] == [refund] && [refund][1..] == [];
    assert DayKeys([refund]) == [0];
    assert DayKeys(rows) == [0];
    assert DayRows([refund], 0) == [refund];
    assert DayRows(rows, 0) == rows;
    assert [0][..0] == [];
    assert rows[..1] == [sale];
    assert [sale][..0] == [];
    assert forall c :: SumColumn([], c) == 0;
    assert SumColumn([sale], Cash) == 100;
    assert SumColumn(rows, Cash) == 60;
    assert SumColumn([sale], Electronic) == 0;
    assert SumColumn(rows, Electronic) == 0;
    assert SumColumn([sale], Advance) == 0;
    assert SumColumn(rows, Advance) == 0;
    assert SumColumn([sale], AdvanceOffset) == 0;
    assert SumColumn(rows, AdvanceOffset) == 0;
    assert SumTotals([sale]) == 100;
    assert SumTotals(rows) == 60;
    assert Emit(rows, [0]) == Emit(rows, []) + DayRows(rows, 0) + [DaySummary(DayRows(rows, 0))];
  }

  // ---------------------------------------------------------------- rows are neither lost nor repeated

  lemma {:induction false} GatheredCons(r: Row, rest: seq<Row>, ks: seq<int>)
    requires StrictlyIncreasing(ks)
    ensures multiset(Gathered([r] + rest, ks))
         == multiset(Gathered(rest, ks)) + (if Day(r) in ks then multiset{r} else multiset{})
  {
    if ks != [] {
      var ks', k := ks[..|ks| - 1], ks[|ks| - 1];
      LastKey(ks, Day(r));
      GatheredCons(r, rest, ks');
      DayRowsCons(r, rest, k);
      assert Gathered([r] + rest, ks) == Gathered([r] + rest, ks') + DayRows([r] + rest, k);
      assert Gathered(rest, ks) == Gathered(rest, ks') + DayRows(rest, k);
    }
  }

  /** A strictly increasing key list holds `d` either before its last key or as its last key, not both. */
  lemma LastKey(ks: seq<int>, d: int)
    requires StrictlyIncreasing(ks) && ks != []
    ensures StrictlyIncreasing(ks[..|ks| - 1])
    ensures d in ks <==> d in ks[..|ks| - 1] || d == ks[|ks| - 1]
    ensures d in ks[..|ks| - 1] ==> d != ks[|ks| - 1]
  {
    assert ks == ks[..|ks| - 1] + [ks[|ks| - 1]];
  }

  lemma DayRowsCons(r: Row, rest: seq<Row>, d: int)
    ensures DayRows([r] + rest, d) == (if Day(r) == d then [r] else []) + DayRows(rest, d)
  {
    assert ([r] + rest)[1..] == rest;
  }

  lemma {:induction false} GatheredNone(ks: seq<int>)
    ensures Gathered([], ks) == []
  {
    if ks != [] {
      GatheredNone(ks[..|ks| - 1]);
    }
  }

  /** Taken together, the groups of all days hold every row exactly once. */
  lemma {:induction false} GatheredIsPermutation(rows: seq<Row>, ks: seq<int>)
    requires StrictlyIncreasing(ks)
    requires forall i :: 0 <= i < |rows| ==> Day(rows[i]) in ks
    ensures multiset(Gathered(rows, ks)) == multiset(rows)
  {
    if rows == [] {
      GatheredNone(ks);
    } else {
      assert rows == [rows[0]] + rows[1..];
      GatheredIsPermutation(rows[1..], ks);
      GatheredCons(rows[0], rows[1..], ks);
    }
  }

  /**
   * The detail rows of the daily-total table are a permutation of the input:
   * no row is lost and none is written twice.
   */
  lemma DetailsArePermutation(rows: seq<Row>)
    ensures multiset(Gathered(rows, DayKeys(rows))) == multiset(rows)
    ensures multiset(WithDailyTotals(rows)) == multiset(rows) + multiset(Summaries(rows, DayKeys(rows)))
  {
    var ks := DayKeys(rows);
    forall i | 0 <= i < |rows| ensures Day(rows[i]) in ks {
      assert HasDay(rows, Day(rows[i]));
    }
    GatheredIsPermutation(rows, ks);
    EmitSplits(rows, ks);
  }

  /** The written table splits into its detail rows and its summary rows. */
  lemma {:induction false} EmitSplits(rows: seq<Row>, ks: seq<int>)
    requires forall k :: k in ks ==> HasDay(rows, k)
    ensures multiset(Emit(rows, ks)) == multiset(Gathered(rows, ks)) + multiset(Summaries(rows, ks))
  {
    if ks != [] {
      var ks', k := ks[..|ks| - 1], ks[|ks| - 1];
      EmitSplits(rows, ks');
      var g := DayRows(rows, k);
      assert Emit(rows, ks) == Emit(rows, ks') + g + [DaySummary(g)];
      assert Gathered(rows, ks) == Gathered(rows, ks') + g;
      assert Summaries(rows, ks) == Summaries(rows, ks') + [DaySummary(g)];
    }
  }

  lemma {:induction false} EmitLength(rows: seq<Row>, ks: seq<int>)
    requires forall k :: k in ks ==> HasDay(rows, k)
    ensures |Emit(rows, ks)| == |Gathered(rows, ks)| + |ks|
  {
    if ks != [] {
      EmitLength(rows, ks[..|ks| - 1]);
    }
  }

  /** The table has one row per input row plus one summary row per distinct day. */
  lemma WithDailyTotalsLength(rows: seq<Row>)
    ensures |WithDailyTotals(rows)| == |rows| + |DayKeys(rows)|
  {
    EmitLength(rows, DayKeys(rows));
    DetailsArePermutation(rows);
    assert |multiset(Gathered(rows, DayKeys(rows)))| == |multiset(rows)|;
  }

  // ---------------------------------------------------------------- highlighted rows

  lemma {:induction false} MarkerCountAppend(a: seq<Row>, b: seq<Row>)
    ensures MarkerCount(a + b) == MarkerCount(a) + MarkerCount(b)
    decreases |b|
  {
    if b != [] {
      var ab := a + b;
      assert ab[..|ab| - 1] == a + b[..|b| - 1];
      assert ab[|ab| - 1] == b[|b| - 1];
      MarkerCountAppend(a, b[..|b| - 1]);
      assert MarkerCount(ab) == MarkerCount(ab[..|ab| - 1]) + (if IsDayTotalRow(ab[|ab| - 1]) then 1 else 0);
    } else {
      assert a + b == a;
    }
  }

  lemma {:induction false} MarkerCountPermutation(a: seq<Row>, b: seq<Row>)
    requires multiset(a) == multiset(b)
    ensures MarkerCount(a) == MarkerCount(b)
    decreases |a|
  {
    if a == [] {
      assert b == [] by { assert |multiset(b)| == 0; }
    } else {
      var j := PickFirst(a, b);
      MarkerCountPermutation(a[1..], b[..j] + b[j + 1..]);
      assert b == b[..j] + [b[j]] + b[j + 1..];
      MarkerCountAppend(b[..j], b[j + 1..]);
      MarkerCountAppend(b[..j] + [b[j]], b[j + 1..]);
      MarkerCountAppend(b[..j], [b[j]]);
      assert a == [a[0]] + a[1..];
      MarkerCountAppend([a[0]], a[1..]);
      assert MarkerCount([a[0]]) == MarkerCount([b[j]]);
    }
  }

  lemma {:induction false} EmitMarkers(rows: seq<Row>, ks: seq<int>)
    requires forall k :: k in ks ==> HasDay(rows, k)
    ensures MarkerCount(Emit(rows, ks)) == MarkerCount(Gathered(rows, ks)) + |ks|
  {
    if ks != [] {
      var ks', k := ks[..|ks| - 1], ks[|ks| - 1];
      EmitMarkers(rows, ks');
      var g := DayRows(rows, k);
      MarkerCountAppend(Emit(rows, ks') + g, [DaySummary(g)]);
      MarkerCountAppend(Emit(rows, ks'), g);
      MarkerCountAppend(Gathered(rows, ks'), g);
      assert MarkerCount([DaySummary(g)]) == 1 by {
        assert [DaySummary(g)][..0] == [];
      }
    }
  }

  /**
   * Exactly one marked row is added per day: the table holds as many marked,
   * hence highlighted, rows as the input has plus the number of days.  When
   * no input row carries the marker, the highlighted rows are exactly the
   * summaries.
   */
  lemma MarkersOnePerDay(rows: seq<Row>)
    ensures MarkerCount(WithDailyTotals(rows)) == MarkerCount(rows) + |DayKeys(rows)|
  {
    EmitMarkers(rows, DayKeys(rows));
    DetailsArePermutation(rows);
    MarkerCountPermutation(Gathered(rows, DayKeys(rows)), rows);
  }

  // ---------------------------------------------------------------- days in ascending order

  lemma {:induction false} EmitDays(rows: seq<Row>, ks: seq<int>)
    requires forall k :: k in ks ==> HasDay(rows, k)
    ensures forall i :: 0 <= i < |Emit(rows, ks)| ==> Day(Emit(rows, ks)[i]) in ks
  {
    if ks != [] {
      var ks', k := ks[..|ks| - 1], ks[|ks| - 1];
      EmitDays(rows, ks');
      var g := DayRows(rows, k);
      var e := Emit(rows, ks);
      assert e == Emit(rows, ks') + g + [DaySummary(g)];
      forall i | 0 <= i < |e| ensures Day(e[i]) in ks {
        if i < |Emit(rows, ks')| {
          assert e[i] == Emit(rows, ks')[i];
          assert Day(e[i]) in ks';
        } else if i < |Emit(rows, ks')| + |g| {
          assert e[i] == g[i - |Emit(rows, ks')|];
        } else {
          assert e[i] == DaySummary(g);
          assert Day(g[|g| - 1]) == k;
        }
      }
    }
  }

  lemma {:induction false} EmitDaySorted(rows: seq<Row>, ks: seq<int>)
    requires StrictlyIncreasing(ks)
    requires forall k :: k in ks ==> HasDay(rows, k)
    ensures DaySorted(Emit(rows, ks))
  {
    if ks != [] {
      var ks', k := ks[..|ks| - 1], ks[|ks| - 1];
      EmitDaySorted(rows, ks');
      EmitDays(rows, ks');
      var g := DayRows(rows, k);
      var prefix := Emit(rows, ks');
      var block := g + [DaySummary(g)];
      assert Day(g[|g| - 1]) == k;
      assert forall i :: 0 <= i < |block| ==> Day(block[i]) == k;
      assert forall i :: 0 <= i < |prefix| ==> Day(prefix[i]) < k by {
        forall i | 0 <= i < |prefix| ensures Day(prefix[i]) < k {
          var p :| 0 <= p < |ks'| && ks'[p] == Day(prefix[i]);
        }
      }
      var e := Emit(rows, ks);
      assert e == prefix + block;
      forall i, j | 0 <= i < j < |e| ensures Day(e[i]) <= Day(e[j]) {
        if j < |prefix| {
          assert e[i] == prefix[i] && e[j] == prefix[j];
        } else if i < |prefix| {
          assert e[i] == prefix[i] && e[j] == block[j - |prefix|];
        } else {
          assert e[i] == block[i - |prefix|] && e[j] == block[j - |prefix|];
        }
      }
    }
  }

  /** Calendar days never decrease along the table: days are written in ascending order. */
  lemma DaysAscend(rows: seq<Row>)
    ensures DaySorted(WithDailyTotals(rows))
  {
    EmitDaySorted(rows, DayKeys(rows));
  }

  // ---------------------------------------------------------------- sorted input keeps its order

  lemma {:induction false} DayRowsAppend(a: seq<Row>, b: seq<Row>, d: int)
    ensures DayRows(a + b, d) == DayRows(a, d) + DayRows(b, d)
  {
    if a != [] {
      var ab := a + b;
      assert ab[0] == a[0];
      assert ab[1..] == a[1..] + b;
      DayRowsAppend(a[1..], b, d);
      assert DayRows(ab, d) == (if Day(a[0]) == d then [a[0]] else []) + DayRows(ab[1..], d);
      assert DayRows(a, d) == (if Day(a[0]) == d then [a[0]] else []) + DayRows(a[1..], d);
    } else {
      assert a + b == b;
    }
  }

  lemma {:induction false} GatheredSnocElsewhere(init: seq<Row>, x: Row, ks: seq<int>)
    requires Day(x) !in ks
    ensures Gathered(init + [x], ks) == Gathered(init, ks)
  {
    if ks != [] {
      var ks', k := ks[..|ks| - 1], ks[|ks| - 1];
      GatheredSnocElsewhere(init, x, ks');
      DayRowsAppend(init, [x], k);
      assert DayRows([x], k) == [] by { assert [x][1..] == []; }
    }
  }

  lemma {:induction false} KeysUnique(a: seq<int>, b: seq<int>)
    requires StrictlyIncreasing(a) && StrictlyIncreasing(b)
    requires forall x :: x in a <==> x in b
    ensures a == b
    decreases |a|
  {
    if b != [] {
      assert b[0] in b;
    }
    if a == [] {
    } else {
      assert a[0] in a;
      assert b != [];
      assert b[0] in b;
      assert a[0] == b[0] by {
        var p :| 0 <= p < |b| && b[p] == a[0];
        var q :| 0 <= q < |a| && a[q] == b[0];
        assert b[0] <= b[p];
        assert a[0] <= a[q];
      }
      forall x ensures x in a[1..] <==> x in b[1..] {
        assert x in a[1..] <==> x in a && x != a[0];
        assert x in b[1..] <==> x in b && x != b[0];
      }
      KeysUnique(a[1..], b[1..]);
      assert a == [a[0]] + a[1..] && b == [b[0]] + b[1..];
    }
  }

  lemma HasDaySnoc(init: seq<Row>, x: Row, d: int)
    ensures HasDay(init + [x], d) <==> HasDay(init, d) || Day(x) == d
  {
    if HasDay(init, d) {
      var i :| 0 <= i < |init| && Day(init[i]) == d;
      assert (init + [x])[i] == init[i];
    }
    if Day(x) == d {
      assert (init + [x])[|init|] == x;
    }
    if HasDay(init + [x], d) && Day(x) != d {
      var i :| 0 <= i < |init + [x]| && Day((init + [x])[i]) == d;
      assert (init + [x])[i] == init[i];
    }
  }

  /** Appending a row of a day that closes the key list appends it to the gathered rows. */
  lemma GatheredSnocLast(init: seq<Row>, x: Row, ks: seq<int>)
    requires Day(x) !in ks
    ensures Gathered(init + [x], ks + [Day(x)]) == Gathered(init, ks + [Day(x)]) + [x]
  {
    var d := Day(x);
    var ks1 := ks + [d];
    assert ks1[..|ks1| - 1] == ks;
    GatheredSnocElsewhere(init, x, ks);
    DayRowsAppend(init, [x], d);
    assert DayRows([x], d) == [x] by { assert [x][1..] == []; }
  }

  /** The last row falls on the last day already present. */
  lemma SnocSameDay(init: seq<Row>, x: Row, ks: seq<int>)
    requires ks == DayKeys(init) && Day(x) in ks
    requires forall e :: e in ks ==> e <= Day(x)
    requires forall e :: e in DayKeys(init + [x]) <==> HasDay(init, e) || Day(x) == e
    ensures DayKeys(init + [x]) == ks
    ensures Gathered(init + [x], ks) == Gathered(init, ks) + [x]
  {
    KeysUnique(DayKeys(init + [x]), ks);
    LargestIsLast(ks, Day(x));
    GatheredSnocLast(init, x, ks[..|ks| - 1]);
  }

  /** In a strictly increasing key list, a key no smaller than any other is the last one, and only there. */
  lemma LargestIsLast(ks: seq<int>, d: int)
    requires StrictlyIncreasing(ks) && d in ks
    requires forall e :: e in ks ==> e <= d
    ensures ks == ks[..|ks| - 1] + [d] && d !in ks[..|ks| - 1]
  {
    var m := |ks|;
    var p :| 0 <= p < m && ks[p] == d;
    assert ks[m - 1] == d by {
      assert ks[m - 1] in ks;
      assert ks[p] <= ks[m - 1];
    }
    assert ks == ks[..m - 1] + [d];
    var front := ks[..m - 1];
    forall q | 0 <= q < |front| ensures front[q] != d {
      assert front[q] == ks[q] < ks[m - 1];
    }
  }

  /** The last row opens a new day, later than every day already present. */
  lemma SnocNewDay(init: seq<Row>, x: Row, ks: seq<int>)
    requires ks == DayKeys(init) && Day(x) !in ks
    requires forall e :: e in ks ==> e <= Day(x)
    requires forall e :: e in DayKeys(init + [x]) <==> HasDay(init, e) || Day(x) == e
    ensures DayKeys(init + [x]) == ks + [Day(x)]
    ensures Gathered(init + [x], ks + [Day(x)]) == Gathered(init, ks) + [x]
  {
    var d := Day(x);
    AppendLarger(ks, d);
    KeysUnique(DayKeys(init + [x]), ks + [d]);
    GatheredSnocLast(init, x, ks);
    GatheredSnocAbsent(init, ks, d);
  }

  lemma AppendLarger(ks: seq<int>, d: int)
    requires StrictlyIncreasing(ks) && d !in ks
    requires forall e :: e in ks ==> e <= d
    ensures StrictlyIncreasing(ks + [d])
  {
    forall q | 0 <= q < |ks| ensures ks[q] < d {
      assert ks[q] in ks;
    }
  }

  /** A day on which no row falls adds nothing to the gathered rows. */
  lemma GatheredSnocAbsent(rows: seq<Row>, ks: seq<int>, d: int)
    requires !HasDay(rows, d)
    ensures Gathered(rows, ks + [d]) == Gathered(rows, ks)
  {
    assert (ks + [d])[..|ks|] == ks;
    assert DayRows(rows, d) == [];
  }

  /**
   * When the rows are in day order, as they are after normalisation, the
   * detail rows of the table are the input rows in their original order.
   */
  lemma {:induction false} DetailsKeepOrder(rows: seq<Row>)
    requires DaySorted(rows)
    ensures Gathered(rows, DayKeys(rows)) == rows
    decreases |rows|
  {
    if rows == [] {
      assert DayKeys(rows) == [];
    } else {
      var init, x := rows[..|rows| - 1], rows[|rows| - 1];
      assert rows == init + [x];
      assert DaySorted(init);
      DetailsKeepOrder(init);
      var ks := DayKeys(init);
      var d := Day(x);
      forall e | e in ks ensures e <= d {
        assert HasDay(init, e);
        var i :| 0 <= i < |init| && Day(init[i]) == e;
        assert rows[i] == init[i];
      }
      forall e ensures e in DayKeys(rows) <==> HasDay(init, e) || d == e {
        HasDaySnoc(init, x, e);
      }
      if d in ks {
        SnocSameDay(init, x, ks);
      } else {
        SnocNewDay(init, x, ks);
      }
    }
  }
}
