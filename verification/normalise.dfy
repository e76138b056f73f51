/**
 * Row normalisation, `process_dataframe` (backend/main.py:42-56): sort by
 * timestamp, force every payment cell of a return row to -|v| (an empty cell
 * counting as 0), then add the row total 'Итого'.
 */
module Normalise {
  import opened Wrappers
  import opened Rows

  function Abs(x: int): int
  {
    if x < 0 then -x else x
  }

  /** The value a return row's payment cell is forced to: -|v|, an empty cell read as 0. */
  function ReturnAmount(v: Option<int>): Option<int>
  {
    Some(-Abs(ValueOr0(v)))
  }

  /** The return mask of backend/main.py:49: an exact match on the sign flag. */
  predicate IsReturn(r: Row)
  {
    r.sign == Some(ReturnFlag)
  }

  /** The sign rule for one column (backend/main.py:51), applied to a single row. */
  function FixColumn(r: Row, c: Column): Row
  {
    if IsReturn(r) then WithAmount(r, c, ReturnAmount(Amount(r, c))) else r
  }

  /** The sign rule applied for the first `n` payment columns, as the column loop does. */
  function FixColumns(r: Row, n: nat): (r': Row)
    requires n <= |PaymentColumns|
    ensures r'.stamp == r.stamp && r'.sign == r.sign && r'.tax == r.tax && r'.total == r.total
  {
    if n == 0 then r else FixColumn(FixColumns(r, n - 1), PaymentColumns[n - 1])
  }

  /** The row with 'Итого' set to the sum of its payment cells (backend/main.py:54). */
  function WithTotal(r: Row): Row
  {
    r.(total := Some(RowSum(r)))
  }

  /**
   * What normalisation does to one row, wherever the sort puts it: the row
   * keeps its timestamp, sign and tax type, and its 'Итого' balances its own
   * payment cells.
   */
  function Normal(r: Row): (n: Row)
    ensures n.stamp == r.stamp && n.sign == r.sign && n.tax == r.tax
    ensures n.total == Some(RowSum(n))
  {
    WithTotal(FixColumns(r, |PaymentColumns|))
  }

  /** Every row normalised where it stands. */
  function NormalAll(rows: seq<Row>): seq<Row>
  {
    seq(|rows|, i requires 0 <= i < |rows| => Normal(rows[i]))
  }

  /**
   * The return sign rule and the total: a return row's four payment cells
   * become -|v| (an empty cell becomes 0), other rows keep theirs, empty ones
   * included; timestamp, sign and tax are untouched; 'Итого' is the sum of the
   * four new payment cells, empty ones counted as 0.
   */
  lemma {:induction false} NormalRow(r: Row)
    ensures forall c :: Amount(Normal(r), c)
                        == (if IsReturn(r) then Some(-Abs(ValueOr0(Amount(r, c)))) else Amount(r, c))
    ensures Normal(r).stamp == r.stamp && Normal(r).sign == r.sign && Normal(r).tax == r.tax
    ensures Normal(r).total == Some(RowSum(Normal(r)))
  {
    assert FixColumns(r, 0) == r;
    var r1 := FixColumns(r, 1);
    var r2 := FixColumns(r, 2);
    var r3 := FixColumns(r, 3);
    var r4 := FixColumns(r, 4);
    assert r1 == FixColumn(r, Cash);
    assert r2 == FixColumn(r1, Electronic);
    assert r3 == FixColumn(r2, Advance);
    assert r4 == FixColumn(r3, AdvanceOffset);
    forall c ensures Amount(Normal(r), c)
      == (if IsReturn(r) then Some(-Abs(ValueOr0(Amount(r, c)))) else Amount(r, c))
    {
      assert Amount(Normal(r), c) == Amount(r4, c);
    }
  }

  /** Every payment cell of a normalised return row holds a value, and it is not positive. */
  lemma ReturnAmountsNonPositive(r: Row, c: Column)
    requires IsReturn(r)
    ensures Amount(Normal(r), c).Some? && Amount(Normal(r), c).value <= 0
  {
    NormalRow(r);
  }

  lemma NormalAllAppend(a: seq<Row>, b: seq<Row>)
    ensures NormalAll(a + b) == NormalAll(a) + NormalAll(b)
  {
    assert |NormalAll(a + b)| == |NormalAll(a) + NormalAll(b)|;
  }

  lemma NormalAllRemove(b: seq<Row>, j: nat)
    requires j < |b|
    ensures multiset(NormalAll(b)) == multiset(NormalAll(b[..j] + b[j + 1..])) + multiset{Normal(b[j])}
  {
    var b1, b2, x := b[..j], b[j + 1..], b[j];
    assert b == b1 + [x] + b2;
    NormalAllAppend(b1, b2);
    NormalAllAppend(b1 + [x], b2);
    NormalAllAppend(b1, [x]);
    assert NormalAll([x]) == [Normal(x)];
    calc {
      multiset(NormalAll(b));
      multiset(NormalAll(b1) + [Normal(x)] + NormalAll(b2));
      multiset(NormalAll(b1)) + multiset{Normal(x)} + multiset(NormalAll(b2));
      multiset(NormalAll(b1) + NormalAll(b2)) + multiset{Normal(x)};
    }
  }

  /** Normalising preserves a permutation: equal multisets of rows give equal multisets of normal rows. */
  lemma {:induction false} NormalAllPermutation(a: seq<Row>, b: seq<Row>)
    requires multiset(a) == multiset(b)
    ensures multiset(NormalAll(a)) == multiset(NormalAll(b))
    decreases |a|
  {
    if a == [] {
      assert b == [] by { assert |multiset(b)| == 0; }
    } else {
      var j := PickFirst(a, b);
      NormalAllPermutation(a[1..], b[..j] + b[j + 1..]);
      NormalAllRemove(b, j);
      NormalAllRemove(a, 0);
      assert a[..0] + a[1..] == a[1..];
      assert a[0] == b[j];
    }
  }

  /** Insertion sort on the timestamp: the result is sorted and a permutation of the input. */
  method SortByStamp(a: array<Row>)
    modifies a
    ensures SortedByStamp(a[..])
    ensures multiset(a[..]) == old(multiset(a[..]))
  {
    var i := 0;
    while i < a.Length
      invariant 0 <= i <= a.Length
      invariant forall p, q :: 0 <= p < q < i ==> a[p].stamp <= a[q].stamp
      invariant multiset(a[..]) == old(multiset(a[..]))
    {
      var j := i;
      while 0 < j && a[j].stamp < a[j - 1].stamp
        invariant 0 <= j <= i
        invariant forall p, q :: 0 <= p < q <= i && q != j ==> a[p].stamp <= a[q].stamp
        invariant multiset(a[..]) == old(multiset(a[..]))
      {
        SwapDown(a, j);
        j := j - 1;
      }
      i := i + 1;
    }
  }

  /** Exchanges `a[j - 1]` and `a[j]`, leaving the other elements in place. */
  method SwapDown(a: array<Row>, j: int)
    requires 0 < j < a.Length
    modifies a
    ensures a[j - 1] == old(a[j]) && a[j] == old(a[j - 1])
    ensures forall k :: 0 <= k < a.Length && k != j - 1 && k != j ==> a[k] == old(a[k])
    ensures multiset(a[..]) == old(multiset(a[..]))
  {
    a[j - 1], a[j] := a[j], a[j - 1];
  }

  /**
   * One pass of the column loop of backend/main.py:50-51: on every return row
   * (as `isReturn` marks them) the payment column `k` becomes -|v|.
   */
  method NegateReturns(a: array<Row>, ghost sorted: seq<Row>, isReturn: seq<bool>, k: nat)
    requires k < |PaymentColumns| && a.Length == |sorted| == |isReturn|
    requires forall j :: 0 <= j < |sorted| ==> isReturn[j] == IsReturn(sorted[j])
    requires forall j :: 0 <= j < a.Length ==> a[j] == FixColumns(sorted[j], k)
    modifies a
    ensures forall j :: 0 <= j < a.Length ==> a[j] == FixColumns(sorted[j], k + 1)
  {
    var c := PaymentColumns[k];
    for i := 0 to a.Length
      invariant forall j :: 0 <= j < i ==> a[j] == FixColumns(sorted[j], k + 1)
      invariant forall j :: i <= j < a.Length ==> a[j] == FixColumns(sorted[j], k)
    {
      if isReturn[i] {
        a[i] := WithAmount(a[i], c, ReturnAmount(Amount(a[i], c)));
      }
    }
  }

  /**
   * `process_dataframe`: the rows come back sorted by timestamp, and they are
   * a permutation of the input rows each normalised by `Normal` (sign rule
   * for returns, total added).
   */
  method ProcessDataframe(table: seq<Row>) returns (rows: seq<Row>)
    ensures SortedByStamp(rows)
    ensures multiset(rows) == multiset(NormalAll(table))
  {
    var a := new Row[|table|](i requires 0 <= i < |table| => table[i]);
    assert a[..] == table;
    SortByStamp(a);
    ghost var sorted := a[..];
    var isReturn := seq(a.Length, i requires 0 <= i < a.Length reads a => IsReturn(a[i]));
    for k := 0 to |PaymentColumns|
      invariant forall j :: 0 <= j < a.Length ==> a[j] == FixColumns(sorted[j], k)
    {
      NegateReturns(a, sorted, isReturn, k);
    }
    for i := 0 to a.Length
      invariant forall j :: 0 <= j < i ==> a[j] == Normal(sorted[j])
      invariant forall j :: i <= j < a.Length ==> a[j] == FixColumns(sorted[j], |PaymentColumns|)
    {
      a[i] := a[i].(total := Some(RowSum(a[i])));
    }
    rows := a[..];
    assert rows == NormalAll(sorted);
    NormalAllPermutation(sorted, table);
  }
}
