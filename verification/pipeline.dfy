/**
 * The report request, `process_excel` (backend/main.py:91-190), without its
 * web and file plumbing: the '.xlsx' check, normalisation, one partition per
 * tax type with its daily-total table, and the failure when no partition has
 * a row.
 */
module Pipeline {
  import opened Wrappers
  import opened Rows
  import opened Text
  import opened Normalise
  import opened DailyTotals

  /** The tax types the table is split by, in the order of backend/main.py:122. */
  const TaxTypes: seq<string> := ["ПАТЕНТ", "УСН"]

  const Extension: string := ".xlsx"

  /** How a request fails: 400 for the wrong file type, 500 when no output file was made. */
  datatype Failure = WrongExtension | NoOutputFiles

  function HttpStatus(f: Failure): (code: int)
    ensures 400 <= code < 600
    ensures code < 500 <==> f == WrongExtension
  {
    match f
    case WrongExtension => 400
    case NoOutputFiles => 500
  }

  /**
   * One output workbook: its archive entry name, its sheet name, the rows
   * written, and for each row whether it is filled grey.
   */
  datatype Report = Report(name: string, sheet: string, table: seq<Row>, fill: seq<bool>)

  /**
   * The filter of backend/main.py:123: the tax cell contains the tax type,
   * ignoring case; an empty cell never matches (`na=False`).
   */
  predicate HasTaxType(r: Row, t: string): (b: bool)
    ensures b <==> r.tax.Some? && exists i :: OccursAt(Fold(r.tax.value), Fold(t), i)
  {
    if r.tax.Some? then
      ContainsAt(Fold(r.tax.value), Fold(t));
      ContainsIgnoringCase(r.tax.value, t)
    else
      false
  }

  /** The partition of one tax type: the matching rows, in table order. */
  function Select(rows: seq<Row>, t: string): (part: seq<Row>)
    ensures forall i :: 0 <= i < |part| ==> HasTaxType(part[i], t)
    ensures |part| <= |rows|
  {
    if rows == [] then []
    else (if HasTaxType(rows[0], t) then [rows[0]] else []) + Select(rows[1..], t)
  }

  /** The partition holds exactly the rows of the table that match, and no others. */
  lemma {:induction false} SelectMembers(rows: seq<Row>, t: string, x: Row)
    ensures x in Select(rows, t) <==> x in rows && HasTaxType(x, t)
  {
    if rows != [] {
      SelectMembers(rows[1..], t, x);
      assert rows == [rows[0]] + rows[1..];
    }
  }

  /** Filtering distributes over concatenation: the partition keeps the table's order. */
  lemma {:induction false} SelectAppend(a: seq<Row>, b: seq<Row>, t: string)
    ensures Select(a + b, t) == Select(a, t) + Select(b, t)
  {
    if a == [] {
      assert a + b == b;
    } else {
      assert (a + b)[0] == a[0] && (a + b)[1..] == a[1..] + b;
      SelectAppend(a[1..], b, t);
    }
  }

  /** A partition of a table sorted by timestamp is sorted by timestamp. */
  lemma {:induction false} SelectSorted(rows: seq<Row>, t: string)
    requires SortedByStamp(rows)
    ensures SortedByStamp(Select(rows, t))
  {
    if rows != [] {
      SelectSorted(rows[1..], t);
      var rest := Select(rows[1..], t);
      forall i | 0 <= i < |rest| ensures rows[0].stamp <= rest[i].stamp {
        SelectMembers(rows[1..], t, rest[i]);
        var j :| 0 <= j < |rows[1..]| && rows[1..][j] == rest[i];
        assert rows[j + 1] == rest[i];
      }
    }
  }

  /** The rows matching at least one tax type. */
  function Covered(rows: seq<Row>): nat
  {
    if rows == [] then 0
    else Covered(rows[1..]) + (if HasTaxType(rows[0], TaxTypes[0]) || HasTaxType(rows[0], TaxTypes[1]) then 1 else 0)
  }

  /** The rows matching both tax types. */
  function Doubled(rows: seq<Row>): nat
  {
    if rows == [] then 0
    else Doubled(rows[1..]) + (if HasTaxType(rows[0], TaxTypes[0]) && HasTaxType(rows[0], TaxTypes[1]) then 1 else 0)
  }

  /**
   * The partitions together hold every row that matches some tax type; a row
   * matching both is written to both, and a row matching none to neither.
   */
  lemma {:induction false} PartitionSizes(rows: seq<Row>)
    ensures |Select(rows, TaxTypes[0])| + |Select(rows, TaxTypes[1])| == Covered(rows) + Doubled(rows)
  {
    if rows != [] {
      PartitionSizes(rows[1..]);
    }
  }

  /** The name `process_excel` gives the output file, and its archive entry, of one tax type. */
  function OutputName(t: string, clock: string, filename: string): (name: string)
    ensures EndsWith(name, filename)
    ensures EndsWith(filename, Extension) ==> EndsWith(name, Extension)
  {
    var prefix := "processed_" + t + "_" + clock + "_";
    assert filename == [] + filename;
    EndsWithExtended(prefix, filename, filename);
    if EndsWith(filename, Extension) then
      EndsWithExtended(prefix, filename, Extension);
      prefix + filename
    else
      prefix + filename
  }

  function Fills(table: seq<Row>): seq<bool>
  {
    seq(|table|, i requires 0 <= i < |table| => IsDayTotalRow(table[i]))
  }

  function ReportOf(rows: seq<Row>, t: string, clock: string, filename: string): Report
  {
    var table := WithDailyTotals(Select(rows, t));
    Report(OutputName(t, clock, filename), t, table, Fills(table))
  }

  /** The reports of the tax types `ts` in turn, skipping those whose partition is empty. */
  function Reports(rows: seq<Row>, ts: seq<string>, clock: string, filename: string): (reps: seq<Report>)
    ensures |reps| <= |ts|
    ensures forall i :: 0 <= i < |reps| ==>
              && reps[i].sheet in ts
              && Select(rows, reps[i].sheet) != []
              && reps[i] == ReportOf(rows, reps[i].sheet, clock, filename)
  {
    if ts == [] then []
    else
      var t := ts[|ts| - 1];
      var front := Reports(rows, ts[..|ts| - 1], clock, filename);
      assert forall x :: x in ts[..|ts| - 1] ==> x in ts;
      front + ReportIfAny(rows, t, clock, filename)
  }

  /** The body of the tax-type loop: the workbook of one non-empty partition. */
  method WriteReport(normal: seq<Row>, t: string, clock: string, filename: string) returns (report: Report)
    requires Select(normal, t) != []
    ensures report == ReportOf(normal, t, clock, filename)
  {
    var sheet, fill := AddDailyTotals(Select(normal, t));
    assert fill == Fills(sheet);
    report := Report(OutputName(t, clock, filename), t, sheet, fill);
  }

  /** One more tax type adds its report, when its partition is non-empty. */
  lemma ReportsStep(rows: seq<Row>, ts: seq<string>, i: nat, clock: string, filename: string)
    requires i < |ts|
    ensures Reports(rows, ts[..i + 1], clock, filename)
         == Reports(rows, ts[..i], clock, filename)
            + ReportIfAny(rows, ts[i], clock, filename)
  {
    assert ts[..i + 1][..i] == ts[..i];
  }

  /**
   * `process_excel`: a name without the '.xlsx' suffix is refused before any
   * work; otherwise the table is normalised (`rows`, sorted and a permutation
   * of the normalised input rows), one report is made per tax type with a
   * non-empty partition, and the request fails when there is none.
   */
  method ProcessExcel(filename: string, clock: string, table: seq<Row>)
    returns (res: Result<seq<Report>, Failure>, ghost rows: seq<Row>)
    ensures !EndsWith(filename, Extension) ==> res == Failure(WrongExtension)
    ensures EndsWith(filename, Extension) ==>
              && SortedByStamp(rows)
              && multiset(rows) == multiset(NormalAll(table))
              && res == (if Reports(rows, TaxTypes, clock, filename) == [] then Failure(NoOutputFiles)
                         else Success(Reports(rows, TaxTypes, clock, filename)))
  {
    if !EndsWith(filename, Extension) {
      return Failure(WrongExtension), [];
    }
    var normal := ProcessDataframe(table);
    rows := normal;
    var outputs := WriteReports(normal, clock, filename);
    if outputs == [] {
      return Failure(NoOutputFiles), rows;
    }
    res := Success(outputs);
  }

  /**
   * The tax-type loop of backend/main.py:122-128: for each tax type in turn,
   * a report of its partition when the partition is non-empty.
   */
  method WriteReports(normal: seq<Row>, clock: string, filename: string) returns (outputs: seq<Report>)
    ensures outputs == Reports(normal, TaxTypes, clock, filename)
  {
    outputs := [];
    for i := 0 to |TaxTypes|
      invariant outputs == Reports(normal, TaxTypes[..i], clock, filename)
    {
      ReportsStep(normal, TaxTypes, i, clock, filename);
      var t := TaxTypes[i];
      var part := Select(normal, t);
      if part != [] {
        var report := WriteReport(normal, t, clock, filename);
        outputs := outputs + [report];
      }
    }
    assert TaxTypes[..|TaxTypes|] == TaxTypes;
  }

  // ---------------------------------------------------------------- what the request returns

  lemma NormalKeepsTax(r: Row, t: string)
    ensures HasTaxType(Normal(r), t) == HasTaxType(r, t)
  {
    NormalRow(r);
  }

  /** A partition is empty exactly when no row of the table matches its tax type. */
  lemma {:induction false} SelectEmpty(rows: seq<Row>, t: string)
    ensures Select(rows, t) == [] <==> forall i :: 0 <= i < |rows| ==> !HasTaxType(rows[i], t)
  {
    if rows != [] {
      SelectEmpty(rows[1..], t);
      assert forall i :: 1 <= i < |rows| ==> rows[i] == rows[1..][i - 1];
    }
  }

  /** The report of tax type `t`, when its partition is non-empty. */
  function ReportIfAny(rows: seq<Row>, t: string, clock: string, filename: string): seq<Report>
  {
    if Select(rows, t) != [] then [ReportOf(rows, t, clock, filename)] else []
  }

  /** The two-step loop unrolled: the ПАТЕНТ report, if any, then the УСН report, if any. */
  lemma ReportsUnrolled(rows: seq<Row>, clock: string, filename: string)
    ensures Reports(rows, TaxTypes, clock, filename)
         == ReportIfAny(rows, TaxTypes[0], clock, filename) + ReportIfAny(rows, TaxTypes[1], clock, filename)
  {
    var p, u := TaxTypes[0], TaxTypes[1];
    assert TaxTypes[..1] == [p] && TaxTypes[..1][..0] == [];
    assert Reports(rows, TaxTypes[..1], clock, filename) == ReportIfAny(rows, p, clock, filename);
    assert Reports(rows, TaxTypes, clock, filename)
        == Reports(rows, TaxTypes[..1], clock, filename) + ReportIfAny(rows, u, clock, filename);
  }

  /** The reports are empty exactly when both partitions are; there is at most one per tax type. */
  lemma ReportsEmpty(rows: seq<Row>, clock: string, filename: string)
    ensures Reports(rows, TaxTypes, clock, filename) == []
        <==> Select(rows, TaxTypes[0]) == [] && Select(rows, TaxTypes[1]) == []
    ensures |Reports(rows, TaxTypes, clock, filename)| <= |TaxTypes|
  {
    ReportsUnrolled(rows, clock, filename);
  }

  /**
   * A tax type gets a report exactly when its partition is non-empty; no tax
   * type gets two; when both get one, ПАТЕНТ comes first.
   */
  lemma ReportsComplete(rows: seq<Row>, clock: string, filename: string)
    ensures var reps := Reports(rows, TaxTypes, clock, filename);
            Select(rows, TaxTypes[0]) != [] <==> exists i :: 0 <= i < |reps| && reps[i].sheet == TaxTypes[0]
    ensures var reps := Reports(rows, TaxTypes, clock, filename);
            Select(rows, TaxTypes[1]) != [] <==> exists i :: 0 <= i < |reps| && reps[i].sheet == TaxTypes[1]
    ensures var reps := Reports(rows, TaxTypes, clock, filename);
            forall i, j :: 0 <= i < j < |reps| ==> reps[i].sheet != reps[j].sheet
    ensures var reps := Reports(rows, TaxTypes, clock, filename);
            |reps| == 2 ==> reps[0].sheet == TaxTypes[0] && reps[1].sheet == TaxTypes[1]
  {
    var p, u := TaxTypes[0], TaxTypes[1];
    assert p != u by { assert p[0] != u[0]; }
    ReportsSheets(rows, clock, filename);
    SheetFacts(Reports(rows, TaxTypes, clock, filename), p, u, Select(rows, p) != [], Select(rows, u) != []);
  }

  /** Reports whose sheets are `p` if `a`, then `u` if `b`: each sheet appears exactly when its flag is set, once. */
  lemma SheetFacts(reps: seq<Report>, p: string, u: string, a: bool, b: bool)
    requires p != u
    requires var sheets := (if a then [p] else []) + (if b then [u] else []);
             |reps| == |sheets| && forall i :: 0 <= i < |reps| ==> reps[i].sheet == sheets[i]
    ensures a <==> exists i :: 0 <= i < |reps| && reps[i].sheet == p
    ensures b <==> exists i :: 0 <= i < |reps| && reps[i].sheet == u
    ensures forall i, j :: 0 <= i < j < |reps| ==> reps[i].sheet != reps[j].sheet
    ensures |reps| == 2 ==> reps[0].sheet == p && reps[1].sheet == u
  {
    if a && b {
      assert reps[0].sheet == p && reps[1].sheet == u;
    } else if a {
      assert reps[0].sheet == p;
    } else if b {
      assert reps[0].sheet == u;
    }
  }

  /** The tax types of the reports, in order: ПАТЕНТ when its partition is non-empty, then УСН likewise. */
  lemma ReportsSheets(rows: seq<Row>, clock: string, filename: string)
    ensures var reps := Reports(rows, TaxTypes, clock, filename);
            var sheets := (if Select(rows, TaxTypes[0]) != [] then [TaxTypes[0]] else [])
                        + (if Select(rows, TaxTypes[1]) != [] then [TaxTypes[1]] else []);
            |reps| == |sheets| && forall i :: 0 <= i < |reps| ==> reps[i].sheet == sheets[i]
  {
    var p, u := TaxTypes[0], TaxTypes[1];
    ReportsUnrolled(rows, clock, filename);
    ReportIfAnySheet(rows, p, clock, filename);
    ReportIfAnySheet(rows, u, clock, filename);
    ConcatSheets(ReportIfAny(rows, p, clock, filename), ReportIfAny(rows, u, clock, filename),
                 p, u, Select(rows, p) != [], Select(rows, u) != []);
  }

  /** Joining the reports of `p` (if `a`) and of `u` (if `b`) gives the sheets `p` if `a`, then `u` if `b`. */
  lemma ConcatSheets(front: seq<Report>, back: seq<Report>, p: string, u: string, a: bool, b: bool)
    requires |front| == (if a then 1 else 0) && forall i :: 0 <= i < |front| ==> front[i].sheet == p
    requires |back| == (if b then 1 else 0) && forall i :: 0 <= i < |back| ==> back[i].sheet == u
    ensures var reps, sheets := front + back, (if a then [p] else []) + (if b then [u] else []);
            |reps| == |sheets| && forall i :: 0 <= i < |reps| ==> reps[i].sheet == sheets[i]
  {
    var reps := front + back;
    var sheets := (if a then [p] else []) + (if b then [u] else []);
    forall i | 0 <= i < |reps| ensures reps[i].sheet == sheets[i] {
      if i < |front| {
        assert reps[i] == front[i];
      } else {
        assert reps[i] == back[i - |front|];
      }
    }
  }

  /** The report of one tax type, if any, is of that tax type. */
  lemma ReportIfAnySheet(rows: seq<Row>, t: string, clock: string, filename: string)
    ensures |ReportIfAny(rows, t, clock, filename)| == (if Select(rows, t) != [] then 1 else 0)
    ensures forall i :: 0 <= i < |ReportIfAny(rows, t, clock, filename)| ==> ReportIfAny(rows, t, clock, filename)[i].sheet == t
  {
  }

  /** A row whose tax cell matches both tax types is written into both workbooks. */
  lemma BothTypesInBoth(rows: seq<Row>, r: Row, clock: string, filename: string)
    requires r in rows && HasTaxType(r, TaxTypes[0]) && HasTaxType(r, TaxTypes[1])
    ensures var reps := Reports(rows, TaxTypes, clock, filename);
            |reps| == 2 && r in reps[0].table && r in reps[1].table
  {
    ReportsUnrolled(rows, clock, filename);
    SelectMembers(rows, TaxTypes[0], r);
    SelectMembers(rows, TaxTypes[1], r);
    InTable(Select(rows, TaxTypes[0]), r);
    InTable(Select(rows, TaxTypes[1]), r);
  }

  /** Every row of a partition appears in its daily-total table. */
  lemma InTable(part: seq<Row>, r: Row)
    requires r in part
    ensures r in WithDailyTotals(part)
  {
    DetailsArePermutation(part);
    assert r in multiset(WithDailyTotals(part));
  }

  /** A permutation of the normalised input has a row of tax type `t` exactly when the input has one. */
  lemma SameMatches(table: seq<Row>, rows: seq<Row>, t: string)
    requires multiset(rows) == multiset(NormalAll(table))
    ensures (forall i :: 0 <= i < |rows| ==> !HasTaxType(rows[i], t))
        <==> (forall i :: 0 <= i < |table| ==> !HasTaxType(table[i], t))
  {
    var n := NormalAll(table);
    if exists i :: 0 <= i < |rows| && HasTaxType(rows[i], t) {
      var i :| 0 <= i < |rows| && HasTaxType(rows[i], t);
      assert rows[i] in multiset(n);
      var j :| 0 <= j < |n| && n[j] == rows[i];
      NormalKeepsTax(table[j], t);
    }
    if exists j :: 0 <= j < |table| && HasTaxType(table[j], t) {
      var j :| 0 <= j < |table| && HasTaxType(table[j], t);
      NormalKeepsTax(table[j], t);
      assert n[j] in multiset(rows);
    }
  }

  /**
   * The request fails with "no output files" exactly when no input row's tax
   * cell contains either tax type; otherwise it returns one report for each
   * tax type some row matches, in the order ПАТЕНТ, УСН.
   */
  lemma NoOutputExactly(table: seq<Row>, rows: seq<Row>, clock: string, filename: string)
    requires multiset(rows) == multiset(NormalAll(table))
    ensures Reports(rows, TaxTypes, clock, filename) == []
        <==> forall i :: 0 <= i < |table| ==> !HasTaxType(table[i], TaxTypes[0]) && !HasTaxType(table[i], TaxTypes[1])
    ensures |Reports(rows, TaxTypes, clock, filename)| <= |TaxTypes|
  {
    SameMatches(table, rows, TaxTypes[0]);
    SameMatches(table, rows, TaxTypes[1]);
    SelectEmpty(rows, TaxTypes[0]);
    SelectEmpty(rows, TaxTypes[1]);
    ReportsEmpty(rows, clock, filename);
  }

  /** The entry names of the two tax types differ, so the archive never holds two entries of one name. */
  lemma OutputNamesDiffer(clock: string, filename: string)
    ensures OutputName(TaxTypes[0], clock, filename) != OutputName(TaxTypes[1], clock, filename)
  {
    assert OutputName(TaxTypes[0], clock, filename)[10] != OutputName(TaxTypes[1], clock, filename)[10];
  }

  /**
   * Every report written for a table sorted by timestamp lists its partition's
   * rows in table order, each day followed by its summary, days ascending.
   */
  lemma ReportInOrder(rows: seq<Row>, t: string)
    requires SortedByStamp(rows)
    ensures Gathered(Select(rows, t), DayKeys(Select(rows, t))) == Select(rows, t)
    ensures DaySorted(WithDailyTotals(Select(rows, t)))
  {
    SelectSorted(rows, t);
    SortedByStampIsDaySorted(Select(rows, t));
    DetailsKeepOrder(Select(rows, t));
    DaysAscend(Select(rows, t));
  }
}
