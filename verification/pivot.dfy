/** The hourly line report: OK counts pivoted into a time-bucket × station table
    (`pd.pivot_table(df, index='Time', columns='Station', values='OK',
    aggfunc='sum', fill_value=0)`), extended by a per-time total column
    ("Total Production/ station") and a bottom total row ("Total Product
    station/Day") that sums every column, the total column included. */
module Pivot {
  import opened Common
  import opened Strings
  import opened Records

  /** Label of the column appended by `pivot_1.sum(axis=1)`; it totals a time row. */
  const TotalColumn: string := "Total Production/ station"
  /** Label of the row appended by `pivot_1.sum(numeric_only=True)`; it totals each column. */
  const TotalRow: string := "Total Product station/Day"

  /** A numeric data frame: row labels, column labels and a row-major grid of counts. */
  datatype Frame = Frame(index: seq<string>, columns: seq<string>, cells: seq<seq<nat>>)

  /** A grid of the given number of rows, each of the given width. */
  predicate Shaped(cells: seq<seq<nat>>, rows: nat, cols: nat) {
    |cells| == rows && forall i :: 0 <= i < rows ==> |cells[i]| == cols
  }

  predicate WellFormed(f: Frame) {
    Shaped(f.cells, |f.index|, |f.columns|)
  }

  // ---------------------------------------------------------------------------
  // The reference cell value

  /** The records that fall into cell (t, s), in input order. */
  function AtCell(rs: seq<Record>, t: string, s: string): (c: seq<Record>)
    ensures forall r :: r in c <==> r in rs && r.time == t && r.station == s
  {
    if |rs| == 0 then []
    else
      assert forall r :: r in rs <==> r == rs[0] || r in rs[1..] by {
        assert rs == [rs[0]] + rs[1..];
      }
      (if rs[0].time == t && rs[0].station == s then [rs[0]] else []) + AtCell(rs[1..], t, s)
  }

  /** How often each record falls into cell (t, s): as often as it occurs in rs
      when it belongs there, never otherwise. */
  lemma {:induction false} AtCellMultiplicity(rs: seq<Record>, t: string, s: string, r: Record)
    ensures multiset(AtCell(rs, t, s))[r] == if r.time == t && r.station == s then multiset(rs)[r] else 0
  {
    if |rs| > 0 {
      assert rs == [rs[0]] + rs[1..];
      AtCellMultiplicity(rs[1..], t, s, r);
    }
  }

  /** The sum of OK over exactly the records with Time t and Station s. */
  function CellSum(rs: seq<Record>, t: string, s: string): nat {
    SumOk(AtCell(rs, t, s))
  }

  // ---------------------------------------------------------------------------
  // The pivot

  /** Every record's time and station are among the given labels. */
  predicate Covers(rs: seq<Record>, index: seq<string>, columns: seq<string>) {
    forall r :: r in rs ==> r.time in index && r.station in columns
  }

  function Zeros(rows: nat, cols: nat): (m: seq<seq<nat>>)
    ensures Shaped(m, rows, cols)
  {
    seq(rows, _ => seq(cols, _ => 0))
  }

  /** The group-by sum: every record adds its OK count to the cell of its time
      and station; cells no record reaches keep the fill value 0. */
  function Tally(rs: seq<Record>, index: seq<string>, columns: seq<string>): (m: seq<seq<nat>>)
    requires Covers(rs, index, columns)
    ensures Shaped(m, |index|, |columns|)
  {
    if |rs| == 0 then Zeros(|index|, |columns|)
    else
      assert rs == [rs[0]] + rs[1..];
      var m := Tally(rs[1..], index, columns);
      var i := FirstIndex(index, rs[0].time);
      var j := FirstIndex(columns, rs[0].station);
      m[i := m[i][j := m[i][j] + rs[0].ok]]
  }

  /** `pd.pivot_table(..., aggfunc='sum', fill_value=0)`: rows are the distinct
      times and columns the distinct stations, each ascending, and every
      (time, station) pair has a cell, present or not in the data. */
  function PivotTable(rs: seq<Record>): (f: Frame)
    ensures WellFormed(f)
    ensures StrictlySorted(f.index) && StrictlySorted(f.columns)
    ensures forall t :: t in f.index <==> Carries(rs, TimeField, t)
    ensures forall s :: s in f.columns <==> Carries(rs, StationField, s)
  {
    var index := SortedDistinct(Column(rs, TimeField));
    var columns := SortedDistinct(Column(rs, StationField));
    assert Covers(rs, index, columns) by {
      ColumnHasValues(rs, TimeField);
      ColumnHasValues(rs, StationField);
    }
    ColumnMembers(rs, TimeField);
    ColumnMembers(rs, StationField);
    Frame(index, columns, Tally(rs, index, columns))
  }

  /** The tally puts into each cell the OK sum of exactly its records. */
  lemma {:induction false} TallyCell(rs: seq<Record>, index: seq<string>, columns: seq<string>, i: nat, j: nat)
    requires Distinct(index) && Distinct(columns) && Covers(rs, index, columns)
    requires i < |index| && j < |columns|
    ensures Tally(rs, index, columns)[i][j] == CellSum(rs, index[i], columns[j])
  {
    if |rs| > 0 {
      var r := rs[0];
      assert rs == [r] + rs[1..];
      TallyCell(rs[1..], index, columns, i, j);
      var i0 := FirstIndex(index, r.time);
      var j0 := FirstIndex(columns, r.station);
      FirstIndexDistinct(index, i);
      FirstIndexDistinct(columns, j);
      var here := if r.time == index[i] && r.station == columns[j] then [r] else [];
      assert (i == i0 && j == j0) <==> (r.time == index[i] && r.station == columns[j]);
      SumByAppend(here, AtCell(rs[1..], index[i], columns[j]), OkCount);
    }
  }

  /** Each cell of the pivot is the OK sum of exactly the records of its time and
      station. */
  lemma PivotCell(rs: seq<Record>, i: nat, j: nat)
    requires i < |PivotTable(rs).index| && j < |PivotTable(rs).columns|
    ensures PivotTable(rs).cells[i][j] == CellSum(rs, PivotTable(rs).index[i], PivotTable(rs).columns[j])
  {
    var p := PivotTable(rs);
    StrictlySortedIsDistinct(p.index);
    StrictlySortedIsDistinct(p.columns);
    TallyCell(rs, p.index, p.columns, i, j);
  }

  /** A (time, station) pair without records is filled with 0, not left out. */
  lemma PivotZeroFill(rs: seq<Record>, i: nat, j: nat)
    requires i < |PivotTable(rs).index| && j < |PivotTable(rs).columns|
    requires forall r :: r in rs ==> !(r.time == PivotTable(rs).index[i] && r.station == PivotTable(rs).columns[j])
    ensures PivotTable(rs).cells[i][j] == 0
  {
    var p := PivotTable(rs);
    PivotCell(rs, i, j);
    var c := AtCell(rs, p.index[i], p.columns[j]);
    if |c| > 0 {
      HeadIsMember(c);
      assert false;
    }
  }

  /** The pivot does not depend on the order of the input records. */
  lemma PivotPermutationInvariant(a: seq<Record>, b: seq<Record>)
    requires multiset(a) == multiset(b)
    ensures PivotTable(a) == PivotTable(b)
  {
    var pa, pb := PivotTable(a), PivotTable(b);
    assert forall r :: r in a <==> r in b by {
      forall r ensures r in a <==> r in b {
        assert r in a <==> r in multiset(a);
        assert r in b <==> r in multiset(b);
      }
    }
    StrictlySortedUnique(pa.index, pb.index);
    StrictlySortedUnique(pa.columns, pb.columns);
    forall i | 0 <= i < |pa.index|
      ensures pa.cells[i] == pb.cells[i]
    {
      forall j | 0 <= j < |pa.columns|
        ensures pa.cells[i][j] == pb.cells[i][j]
      {
        var t, s := pa.index[i], pa.columns[j];
        PivotCell(a, i, j);
        PivotCell(b, i, j);
        forall r ensures multiset(AtCell(a, t, s))[r] == multiset(AtCell(b, t, s))[r] {
          AtCellMultiplicity(a, t, s, r);
          AtCellMultiplicity(b, t, s, r);
        }
        assert multiset(AtCell(a, t, s)) == multiset(AtCell(b, t, s));
        SumByPermutation(AtCell(a, t, s), AtCell(b, t, s), OkCount);
      }
    }
  }

  // ---------------------------------------------------------------------------
  // Row and column totals

  /** `df.sum(axis=1)`: one total per row. */
  function RowTotals(m: seq<seq<nat>>): (r: seq<nat>)
    ensures |r| == |m|
  {
    seq(|m|, i requires 0 <= i < |m| => Sum(m[i]))
  }

  /** The j-th column of a grid. */
  function GridColumn(m: seq<seq<nat>>, j: nat): (c: seq<nat>)
    requires forall i :: 0 <= i < |m| ==> j < |m[i]|
    ensures |c| == |m|
  {
    seq(|m|, i requires 0 <= i < |m| => m[i][j])
  }

  /** `df.sum()`: one total per column. */
  function ColumnTotals(m: seq<seq<nat>>, cols: nat): (r: seq<nat>)
    requires Shaped(m, |m|, cols)
    ensures |r| == cols
  {
    seq(cols, j requires 0 <= j < cols => Sum(GridColumn(m, j)))
  }

  /** Sum of all cells of a grid, row after row. */
  function GridTotal(m: seq<seq<nat>>): nat {
    Sum(RowTotals(m))
  }

  /** `df[name] = values`: every column named name takes the values; a new
      name is appended as the last column. */
  function SetColumn(f: Frame, name: string, values: seq<nat>): (r: Frame)
    requires WellFormed(f) && |values| == |f.index|
    ensures WellFormed(r) && r.index == f.index
    ensures name in f.columns ==> r.columns == f.columns
    ensures name !in f.columns ==> r.columns == f.columns + [name]
    ensures forall i, j :: 0 <= i < |r.index| && 0 <= j < |r.columns| && r.columns[j] == name ==>
      r.cells[i][j] == values[i]
    ensures forall i, j :: 0 <= i < |f.index| && 0 <= j < |f.columns| && f.columns[j] != name ==>
      r.cells[i][j] == f.cells[i][j]
  {
    if name in f.columns then
      Frame(f.index, f.columns,
        seq(|f.cells|, i requires 0 <= i < |f.cells| =>
          seq(|f.columns|, j requires 0 <= j < |f.columns| =>
            if f.columns[j] == name then values[i] else f.cells[i][j])))
    else
      Frame(f.index, f.columns + [name],
        seq(|f.cells|, i requires 0 <= i < |f.cells| => f.cells[i] + [values[i]]))
  }

  /** `df.loc[name] = values`: every row labelled name takes the values; a new
      name is appended as the last row. */
  function SetRow(f: Frame, name: string, values: seq<nat>): (r: Frame)
    requires WellFormed(f) && |values| == |f.columns|
    ensures WellFormed(r) && r.columns == f.columns
    ensures name in f.index ==> r.index == f.index
    ensures name !in f.index ==> r.index == f.index + [name]
    ensures forall i :: 0 <= i < |r.index| && r.index[i] == name ==> r.cells[i] == values
    ensures forall i :: 0 <= i < |f.index| && f.index[i] != name ==> r.cells[i] == f.cells[i]
  {
    if name in f.index then
      Frame(f.index, f.columns,
        seq(|f.cells|, i requires 0 <= i < |f.cells| =>
          if f.index[i] == name then values else f.cells[i]))
    else
      Frame(f.index + [name], f.columns, f.cells + [values])
  }

  /** Lines 21-22 of the report: the per-time total column, then the total row,
      which also totals the new column. */
  function WithTotals(p: Frame): (r: Frame)
    requires WellFormed(p)
    ensures WellFormed(r)
  {
    var f := SetColumn(p, TotalColumn, RowTotals(p.cells));
    SetRow(f, TotalRow, ColumnTotals(f.cells, |f.columns|))
  }

  /** The report: the pivot with its totals. */
  function Report(rs: seq<Record>): (r: Frame)
    ensures WellFormed(r)
  {
    WithTotals(PivotTable(rs))
  }

  /** When no time is literally the total row's name and no station the total
      column's, the totals extend the pivot by one column and one row: the
      original cells stay, the new column holds each time row's sum of station
      cells, and the new row holds each column's sum over the time rows. */
  lemma WithTotalsLayout(p: Frame)
    requires WellFormed(p)
    requires TotalColumn !in p.columns && TotalRow !in p.index
    ensures var r := WithTotals(p);
      && r.index == p.index + [TotalRow]
      && r.columns == p.columns + [TotalColumn]
      && (forall i, j :: 0 <= i < |p.index| && 0 <= j < |p.columns| ==> r.cells[i][j] == p.cells[i][j])
      && (forall i :: 0 <= i < |p.index| ==> r.cells[i][|p.columns|] == Sum(p.cells[i]))
      && (forall j :: 0 <= j <= |p.columns| ==> r.cells[|p.index|][j] == Sum(GridColumn(r.cells[..|p.index|], j)))
  {
    var f := SetColumn(p, TotalColumn, RowTotals(p.cells));
    var r := WithTotals(p);
    assert f.columns == p.columns + [TotalColumn];
    assert TotalRow !in f.index;
    assert r.cells == f.cells + [ColumnTotals(f.cells, |f.columns|)];
    assert r.cells[..|p.index|] == f.cells;
  }

  // ---------------------------------------------------------------------------
  // Grand total

  lemma RowTotalsUpdate(m: seq<seq<nat>>, i: nat, row: seq<nat>)
    requires i < |m|
    ensures RowTotals(m[i := row]) == RowTotals(m)[i := Sum(row)]
  {
  }

  /** Every record adds its OK count to the sum of all cells of the tally. */
  lemma {:induction false} TallyTotal(rs: seq<Record>, index: seq<string>, columns: seq<string>)
    requires Covers(rs, index, columns)
    ensures GridTotal(Tally(rs, index, columns)) == SumOk(rs)
  {
    if |rs| == 0 {
      var z := Zeros(|index|, |columns|);
      forall i | 0 <= i < |z|
        ensures RowTotals(z)[i] == 0
      {
        SumZeros(|columns|);
      }
      assert RowTotals(z) == seq(|index|, _ => 0);
      SumZeros(|index|);
    } else {
      assert rs == [rs[0]] + rs[1..];
      TallyTotal(rs[1..], index, columns);
      var m := Tally(rs[1..], index, columns);
      var i := FirstIndex(index, rs[0].time);
      var j := FirstIndex(columns, rs[0].station);
      var row: seq<nat> := m[i][j := m[i][j] + rs[0].ok];
      SumBump(m[i], j, rs[0].ok);
      RowTotalsUpdate(m, i, row);
      SumBump(RowTotals(m), i, rs[0].ok);
    }
  }

  /** Entrywise sum of two equally long count lists. */
  function Plus(a: seq<nat>, b: seq<nat>): (c: seq<nat>)
    requires |a| == |b|
    ensures |c| == |a|
  {
    seq(|a|, k requires 0 <= k < |a| => a[k] + b[k])
  }

  lemma {:induction false} SumPlus(a: seq<nat>, b: seq<nat>)
    requires |a| == |b|
    ensures Sum(Plus(a, b)) == Sum(a) + Sum(b)
  {
    if |a| > 0 {
      assert Plus(a, b)[1..] == Plus(a[1..], b[1..]);
      SumPlus(a[1..], b[1..]);
    }
  }

  /** Summing the column totals gives the same as summing the row totals. */
  lemma {:induction false} ColumnTotalsSum(m: seq<seq<nat>>, cols: nat)
    requires Shaped(m, |m|, cols)
    ensures Sum(ColumnTotals(m, cols)) == GridTotal(m)
  {
    if |m| == 0 {
      assert ColumnTotals(m, cols) == seq(cols, _ => 0);
      SumZeros(cols);
    } else {
      var rest := m[1..];
      ColumnTotalsSum(rest, cols);
      forall j | 0 <= j < cols
        ensures ColumnTotals(m, cols)[j] == Plus(m[0], ColumnTotals(rest, cols))[j]
      {
        assert GridColumn(m, j) == [m[0][j]] + GridColumn(rest, j);
      }
      assert ColumnTotals(m, cols) == Plus(m[0], ColumnTotals(rest, cols));
      SumPlus(m[0], ColumnTotals(rest, cols));
      assert RowTotals(m) == [Sum(m[0])] + RowTotals(rest);
    }
  }

  /** No record's time is the total row's name and no record's station the total
      column's. */
  predicate NoLabelClash(rs: seq<Record>) {
    forall r :: r in rs ==> r.time != TotalRow && r.station != TotalColumn
  }

  /** The bottom-right cell of the report is the sum of all OK values, which is
      also the sum of the per-time totals and the sum of the station totals. */
  lemma GrandTotal(rs: seq<Record>)
    requires NoLabelClash(rs)
    ensures var p := PivotTable(rs);
      && Report(rs).cells[|p.index|][|p.columns|] == SumOk(rs)
      && Sum(RowTotals(p.cells)) == SumOk(rs)
      && Sum(ColumnTotals(p.cells, |p.columns|)) == SumOk(rs)
  {
    var p := PivotTable(rs);
    assert TotalColumn !in p.columns && TotalRow !in p.index;
    TallyTotal(rs, p.index, p.columns);
    ColumnTotalsSum(p.cells, |p.columns|);
    TotalsCorner(p);
  }

  /** The corner cell of the totals is the sum of all cells of the frame. */
  lemma TotalsCorner(p: Frame)
    requires WellFormed(p)
    requires TotalColumn !in p.columns && TotalRow !in p.index
    ensures WithTotals(p).cells[|p.index|][|p.columns|] == GridTotal(p.cells)
  {
    WithTotalsLayout(p);
    var r := WithTotals(p);
    assert GridColumn(r.cells[..|p.index|], |p.columns|) == RowTotals(p.cells);
  }

  /** With non-negative counts, a cell is at most its time row's total, and that
      total is at most the grand total. */
  lemma ReportBounds(rs: seq<Record>, i: nat, j: nat)
    requires NoLabelClash(rs)
    requires i < |PivotTable(rs).index| && j < |PivotTable(rs).columns|
    ensures var p := PivotTable(rs); var r := Report(rs);
      && r.cells[i][j] <= r.cells[i][|p.columns|]
      && r.cells[i][|p.columns|] <= r.cells[|p.index|][|p.columns|]
  {
    var p := PivotTable(rs);
    WithTotalsLayout(p);
    GrandTotal(rs);
    EntryAtMostSum(p.cells[i], j);
    EntryAtMostSum(RowTotals(p.cells), i);
  }
}
