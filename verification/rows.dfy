/**
 * Rows of a fiscal-data operator's cheque export, as the report pipeline of
 * backend/main.py reads and writes them.  Only the columns the pipeline reads
 * or writes are modelled; every other column rides along untouched.
 */
module Rows {
  import opened Wrappers

  /** The four payment columns, PAYMENT_COLUMNS of backend/main.py:22. */
  datatype Column = Cash | Electronic | Advance | AdvanceOffset

  /** The payment columns in the order the source lists them. */
  const PaymentColumns: seq<Column> := [Cash, Electronic, Advance, AdvanceOffset]

  /** The calculation-sign value that marks a return ('Признак расчета'). */
  const ReturnFlag: string := "Возврат прихода"

  /** The calculation-sign value written into every daily summary row. */
  const DayTotalMarker: string := "ИТОГО за день"

  const SecondsPerDay: int := 86400

  /**
   * One row of the table.  `stamp` is the parsed 'Дата/время' as seconds of
   * naive wall-clock time; amounts are in kopecks; `None` is an empty cell.
   * `total` is the 'Итого' column, which normalisation (re)computes.
   */
  datatype Row = Row(
    stamp: int,
    sign: Option<string>,
    tax: Option<string>,
    cash: Option<int>,
    electronic: Option<int>,
    advance: Option<int>,
    offset: Option<int>,
    total: Option<int>)

  /** The cell of payment column `c`. */
  function Amount(r: Row, c: Column): Option<int>
  {
    match c
    case Cash => r.cash
    case Electronic => r.electronic
    case Advance => r.advance
    case AdvanceOffset => r.offset
  }

  /** `r` with the cell of payment column `c` replaced by `v`; nothing else changes. */
  function WithAmount(r: Row, c: Column, v: Option<int>): (r': Row)
    ensures Amount(r', c) == v
    ensures forall d :: d != c ==> Amount(r', d) == Amount(r, d)
    ensures r'.stamp == r.stamp && r'.sign == r.sign && r'.tax == r.tax && r'.total == r.total
  {
    match c
    case Cash => r.(cash := v)
    case Electronic => r.(electronic := v)
    case Advance => r.(advance := v)
    case AdvanceOffset => r.(offset := v)
  }

  /** pandas' `sum` skips empty cells, so an empty cell adds 0. */
  function ValueOr0(v: Option<int>): int
  {
    if v.Some? then v.value else 0
  }

  /** The sum of the four payment cells of a row, empty cells read as 0. */
  function RowSum(r: Row): int
  {
    ValueOr0(r.cash) + ValueOr0(r.electronic) + ValueOr0(r.advance) + ValueOr0(r.offset)
  }

  /** The calendar day (days since the epoch) of a timestamp: `.dt.date`. */
  function DateOf(stamp: int): int
  {
    stamp / SecondsPerDay
  }

  function Day(r: Row): int
  {
    DateOf(r.stamp)
  }

  predicate SortedByStamp(s: seq<Row>)
  {
    forall i, j :: 0 <= i < j < |s| ==> s[i].stamp <= s[j].stamp
  }

  predicate DaySorted(s: seq<Row>)
  {
    forall i, j :: 0 <= i < j < |s| ==> Day(s[i]) <= Day(s[j])
  }

  /** Rows sorted by timestamp are sorted by calendar day. */
  lemma SortedByStampIsDaySorted(s: seq<Row>)
    requires SortedByStamp(s)
    ensures DaySorted(s)
  {
    forall i, j | 0 <= i < j < |s| ensures Day(s[i]) <= Day(s[j]) {
      assert s[i].stamp <= s[j].stamp;
    }
  }

  /** The position in `b` of the first row of `a`, and what is left of `b` once it is removed. */
  lemma PickFirst(a: seq<Row>, b: seq<Row>) returns (j: nat)
    requires multiset(a) == multiset(b) && a != []
    ensures j < |b| && b[j] == a[0]
    ensures multiset(a[1..]) == multiset(b[..j] + b[j + 1..])
  {
    assert a[0] in multiset(b);
    j :| 0 <= j < |b| && b[j] == a[0];
    assert b == b[..j] + [a[0]] + b[j + 1..];
    assert a == [a[0]] + a[1..];
    assert multiset(a[1..]) == multiset(a) - multiset{a[0]};
    assert multiset(b[..j] + b[j + 1..]) == multiset(b) - multiset{a[0]};
  }
}
